/**
 What a filter says of a record, over the paths of its attributes, and that the split
 searches for exactly this (src/query/filter/phase6.rs).
 */
module FilterRecords {
  import opened Wrappers
  import opened Bytes
  import SP = SearchPredicates
  import opened SearchScan
  import opened Indexer
  import opened RecordMeaning
  import opened FilterSplit

  // ---- atoms over records ----

  /** The attributes of a record that a filter searches in the index. */
  predicate Searched(field: Field) {
    field.Inputs? || field.Outputs? || field.Extra? || field.AttributesJson?
  }

  predicate AsksIndex(f: Filter) {
    match f
    case Search(_, _) | JsonKey(_, _) | JsonKeySearch(_, _, _) => true
    case Compare(_, field, _) => Searched(field)
    case Has(field, _) => Searched(field)
    case In(field, _) => Searched(field)
    case Contains(field, _, _) => Searched(field)
    case And(_) | Or(_) => false
  }

  /** A value as text: itself, a number as it prints, or the name of a truth value. */
  predicate Prints(value: Value, text: ByteString) {
    match value
    case StringValue(s) => text == s
    case NumberValue(digits) => text == digits
    case BoolValue(flag) => if flag then text == Ascii("true") else text == Ascii("false")
  }

  /** The two tops under which a payload field's attributes stand. */
  predicate Top(field: Field, top: ByteString) {
    match field
    case Inputs => top == Ascii("inputs") || top == Ascii("langsmith.inputs")
    case Outputs => top == Ascii("outputs") || top == Ascii("langsmith.outputs")
    case Extra => top == Ascii("extra") || top == Ascii("langsmith.extra")
    case _ => false
  }

  /** What follows a top: nothing, or a dot and the rest. */
  predicate Joined(top: ByteString, rest: ByteString, path: ByteString) {
    path == if rest == [] then top else top + Ascii(".") + rest
  }

  /** The places a search in a field looks at, one at a time. */
  ghost predicate Place(field: Field, place: SP.SearchField) {
    match field
    case AttributesJson => place == SP.AllPaths
    case Name => place == SP.ExactPath(Ascii("name"))
    case RunType => place == SP.ExactPath(Ascii("run_type"))
    case Status => place == SP.ExactPath(Ascii("status"))
    case _ => exists top :: Top(field, top) && place == SP.PathPrefix(top)
  }

  /** The spellings of a path inside a field. */
  ghost predicate Spelling(field: Field, rest: ByteString, path: ByteString) {
    if field == AttributesJson then path == rest else exists top :: Top(field, top) && Joined(top, rest, path)
  }

  ghost predicate TextInField(r: Record, field: Field, text: ByteString) {
    exists place :: Place(field, place) && TextFound(r, place, text)
  }

  ghost predicate ValueInField(r: Record, field: Field, value: Value) {
    exists place, text :: Place(field, place) && Prints(value, text) && ValueFound(r, place, text)
  }

  ghost predicate PrintedTextInField(r: Record, field: Field, value: Value) {
    exists text :: Prints(value, text) && TextInField(r, field, text)
  }

  ghost predicate KeyInField(r: Record, field: Field, rest: ByteString) {
    exists path :: Spelling(field, rest, path) && KeyFound(r, path)
  }

  ghost predicate PrintedKeyInField(r: Record, field: Field, value: Value) {
    exists text :: Prints(value, text) && KeyInField(r, field, text)
  }

  ghost predicate TextAtPath(r: Record, field: Field, rest: ByteString, text: ByteString) {
    exists path :: Spelling(field, rest, path) && TextFound(r, SP.ExactPath(path), text)
  }

  /** What an atom that asks the index says of a record. */
  ghost predicate AtomOnRecord(f: Filter, r: Record)
    requires AsksIndex(f)
  {
    match f
    case Search(None, text) => TextFound(r, SP.AllPaths, text)
    case Search(Some(field), text) => TextInField(r, field, text)
    case JsonKey(None, pattern) => KeyFound(r, pattern)
    case JsonKey(Some(field), pattern) => KeyInField(r, field, pattern)
    case JsonKeySearch(None, path, text) => TextFound(r, SP.ExactPath(path), text)
    case JsonKeySearch(Some(field), path, text) => TextAtPath(r, field, path, text)
    case Compare(op, field, value) => if op == Eq then ValueInField(r, field, value) else !ValueInField(r, field, value)
    case Has(field, value) => PrintedKeyInField(r, field, value)
    case In(field, values) => exists value :: value in values && ValueInField(r, field, value)
    case Contains(field, value, negated) =>
      if negated then !PrintedTextInField(r, field, value) else PrintedTextInField(r, field, value)
  }

  /** What a filter says of a record; its other atoms are about columns. */
  ghost predicate FilterOnRecord(f: Filter, r: Record, scalar: Filter -> bool) {
    match f
    case And(children) => forall i :: 0 <= i < |children| ==> FilterOnRecord(children[i], r, scalar)
    case Or(children) => exists i :: 0 <= i < |children| && FilterOnRecord(children[i], r, scalar)
    case _ => if AsksIndex(f) then AtomOnRecord(f, r) else scalar(f)
  }

  // ---- the split's predicates ask this ----

  /** What the index says of the record, leaf by leaf. */
  ghost function OnRecord(r: Record): SP.SearchPredicate -> bool {
    p => Matches(r, p)
  }

  lemma {:induction false} EvalIsMatches(r: Record, p: SP.SearchPredicate)
    ensures SP.Eval(p, OnRecord(r)) <==> Matches(r, p)
  {
    hide TextFound, WordFound, PhraseFound, ValueFound, KeyFound;
    match p
    case And(children) =>
      forall i | 0 <= i < |children|
        ensures SP.Eval(children[i], OnRecord(r)) <==> Matches(r, children[i])
      {
        EvalIsMatches(r, children[i]);
      }
    case Or(children) =>
      forall i | 0 <= i < |children|
        ensures SP.Eval(children[i], OnRecord(r)) <==> Matches(r, children[i])
      {
        EvalIsMatches(r, children[i]);
      }
    case Not(child) => EvalIsMatches(r, child);
    case _ =>
  }

  lemma {:induction false} SameAtoms(f: Filter)
    ensures AsksIndex(f) <==> IsSearchAtom(f)
  {
  }

  lemma {:induction false} PrintsAs(value: Value, text: ByteString)
    ensures Prints(value, text) <==> text == AsString(value)
  {
    hide Ascii;
  }

  lemma {:induction false} DottedJoins(top: ByteString, rest: ByteString, path: ByteString)
    ensures Joined(top, rest, path) <==> path == Dotted(top, rest)
  {
    assert top + [] == top && top + Ascii(".") + rest == top + (Ascii(".") + rest);
  }

  /** Asking one place after another. */
  lemma {:induction false} ScopesArePlaces(field: Field, hit: SP.SearchField -> bool)
    requires IsPayload(field)
    ensures InSomeScope(field, hit) <==> exists place :: Place(field, place) && hit(place)
  {
    hide Ascii;
    match field
    case Inputs => TwoPlaces(field, Ascii("inputs"), Ascii("langsmith.inputs"), hit);
    case Outputs => TwoPlaces(field, Ascii("outputs"), Ascii("langsmith.outputs"), hit);
    case Extra => TwoPlaces(field, Ascii("extra"), Ascii("langsmith.extra"), hit);
    case AttributesJson => assert Place(field, SP.AllPaths);
    case _ =>
  }

  lemma {:induction false} TwoPlaces(field: Field, a: ByteString, b: ByteString, hit: SP.SearchField -> bool)
    requires field.Inputs? || field.Outputs? || field.Extra?
    requires forall top :: Top(field, top) <==> top == a || top == b
    ensures (exists place :: Place(field, place) && hit(place)) <==> hit(SP.PathPrefix(a)) || hit(SP.PathPrefix(b))
  {
    hide Top;
    assert Top(field, a) && Top(field, b);
    assert Place(field, SP.PathPrefix(a)) && Place(field, SP.PathPrefix(b));
    if place :| Place(field, place) && hit(place) {
      var top :| Top(field, top) && place == SP.PathPrefix(top);
    }
  }

  lemma {:induction false} PathsAreSpellings(field: Field, rest: ByteString, hit: ByteString -> bool)
    requires IsPayload(field)
    ensures AtSomePath(field, rest, hit) <==> exists path :: Spelling(field, rest, path) && hit(path)
  {
    hide Ascii;
    match field
    case Inputs => TwoSpellings(field, Ascii("inputs"), Ascii("langsmith.inputs"), rest, hit);
    case Outputs => TwoSpellings(field, Ascii("outputs"), Ascii("langsmith.outputs"), rest, hit);
    case Extra => TwoSpellings(field, Ascii("extra"), Ascii("langsmith.extra"), rest, hit);
    case AttributesJson => assert Spelling(field, rest, rest);
    case _ =>
  }

  lemma {:induction false} TwoSpellings(field: Field, a: ByteString, b: ByteString, rest: ByteString, hit: ByteString -> bool)
    requires field != AttributesJson && forall top :: Top(field, top) <==> top == a || top == b
    ensures (exists path :: Spelling(field, rest, path) && hit(path)) <==> hit(Dotted(a, rest)) || hit(Dotted(b, rest))
  {
    DottedJoins(a, rest, Dotted(a, rest));
    DottedJoins(b, rest, Dotted(b, rest));
    hide Top, Joined, Dotted;
    assert Top(field, a) && Top(field, b);
    assert Spelling(field, rest, Dotted(a, rest)) && Spelling(field, rest, Dotted(b, rest));
    if path :| Spelling(field, rest, path) && hit(path) {
      var top :| Top(field, top) && Joined(top, rest, path);
      DottedJoins(top, rest, path);
    }
  }

  lemma {:induction false} TextHit(r: Record, place: SP.SearchField, text: ByteString)
    ensures OnRecord(r)(SP.Text(place, SP.ParseQuery(text))) <==> TextFound(r, place, text)
  {
    ParsedTextFound(r, place, text);
    hide TextFound, SP.ParseQuery, Matches;
  }

  lemma {:induction false} TextInScope(r: Record, field: Field, text: ByteString)
    requires IsPayload(field)
    ensures InSomeScope(field, (s: SP.SearchField) => OnRecord(r)(SP.Text(s, SP.ParseQuery(text)))) <==> TextInField(r, field, text)
  {
    var hit := (s: SP.SearchField) => OnRecord(r)(SP.Text(s, SP.ParseQuery(text)));
    ScopesArePlaces(field, hit);
    hide InSomeScope, Place, TextFound, OnRecord, SP.ParseQuery;
    forall s
      ensures hit(s) <==> TextFound(r, s, text)
    {
      TextHit(r, s, text);
    }
  }

  lemma {:induction false} ValueInPlace(r: Record, field: Field, value: Value)
    requires IsPayload(field)
    ensures InSomeScope(field, (s: SP.SearchField) => OnRecord(r)(SP.ExactValue(s, AsString(value)))) <==> ValueInField(r, field, value)
  {
    var hit := (s: SP.SearchField) => OnRecord(r)(SP.ExactValue(s, AsString(value)));
    ScopesArePlaces(field, hit);
    PrintsAs(value, AsString(value));
    hide InSomeScope, Place, Prints, ValueFound, AsString, OnRecord;
    forall s
      ensures hit(s) <==> ValueFound(r, s, AsString(value))
    {
      ValueLeaf(r, s, AsString(value));
    }
    if place, text :| Place(field, place) && Prints(value, text) && ValueFound(r, place, text) {
      PrintsAs(value, text);
    }
  }

  lemma {:induction false} KeyAtPath(r: Record, field: Field, rest: ByteString)
    requires IsPayload(field)
    ensures AtSomePath(field, rest, (p: ByteString) => OnRecord(r)(SP.JsonKey(p))) <==> KeyInField(r, field, rest)
  {
    var hit := (p: ByteString) => OnRecord(r)(SP.JsonKey(p));
    PathsAreSpellings(field, rest, hit);
    hide AtSomePath, Spelling, KeyFound, OnRecord;
    forall p
      ensures hit(p) <==> KeyFound(r, p)
    {
      KeyLeaf(r, p);
    }
  }

  lemma {:induction false} TextOnPath(r: Record, field: Field, rest: ByteString, text: ByteString)
    requires IsPayload(field)
    ensures AtSomePath(field, rest, (p: ByteString) => OnRecord(r)(SP.Text(SP.ExactPath(p), SP.ParseQuery(text)))) <==>
            TextAtPath(r, field, rest, text)
  {
    var hit := (p: ByteString) => OnRecord(r)(SP.Text(SP.ExactPath(p), SP.ParseQuery(text)));
    PathsAreSpellings(field, rest, hit);
    hide AtSomePath, Spelling, TextFound, OnRecord, SP.ParseQuery;
    forall p
      ensures hit(p) <==> TextFound(r, SP.ExactPath(p), text)
    {
      TextHit(r, SP.ExactPath(p), text);
    }
  }

  lemma {:induction false} PrintedKey(r: Record, field: Field, value: Value)
    ensures PrintedKeyInField(r, field, value) <==> KeyInField(r, field, AsString(value))
  {
    PrintsAs(value, AsString(value));
    hide KeyInField, Prints, AsString;
    if text :| Prints(value, text) && KeyInField(r, field, text) {
      PrintsAs(value, text);
    }
  }

  lemma {:induction false} PrintedText(r: Record, field: Field, value: Value)
    ensures PrintedTextInField(r, field, value) <==> TextInField(r, field, AsString(value))
  {
    PrintsAs(value, AsString(value));
    hide TextInField, Prints, AsString;
    if text :| Prints(value, text) && TextInField(r, field, text) {
      PrintsAs(value, text);
    }
  }

  lemma {:induction false} TextColumn(r: Record, field: Field, path: ByteString, text: ByteString)
    requires field.Name? || field.RunType? || field.Status?
    requires forall place :: Place(field, place) <==> place == SP.ExactPath(path)
    ensures TextInField(r, field, text) <==> OnRecord(r)(SP.Text(SP.ExactPath(path), SP.ParseQuery(text)))
  {
    TextHit(r, SP.ExactPath(path), text);
    hide TextFound, OnRecord, SP.ParseQuery, Place;
    assert Place(field, SP.ExactPath(path));
  }

  lemma {:induction false} SearchMeans(r: Record, field: Field, text: ByteString)
    requires IsPayload(field) || IndexedTextPath(field).Some?
    ensures SearchAtomHolds(Search(Some(field), text), OnRecord(r)) <==> TextInField(r, field, text)
  {
    hide OnRecord, TextInField, SP.ParseQuery, Ascii;
    match field
    case Name => TextColumn(r, field, Ascii("name"), text);
    case RunType => TextColumn(r, field, Ascii("run_type"), text);
    case Status => TextColumn(r, field, Ascii("status"), text);
    case _ => TextInScope(r, field, text);
  }

  lemma {:induction false} AtomMeans(f: Filter, r: Record)
    requires IsSearchAtom(f) && AtomPredicate(f).Ok?
    ensures AsksIndex(f) && (SearchAtomHolds(f, OnRecord(r)) <==> AtomOnRecord(f, r))
  {
    SameAtoms(f);
    hide OnRecord, TextInField, KeyInField, TextAtPath, ValueInField, InSomeScope, AtSomePath, PrintedKeyInField, PrintedTextInField,
         SP.ParseQuery, TextFound, KeyFound, AsString;
    match f
    case Search(None, text) => TextHit(r, SP.AllPaths, text);
    case Search(Some(field), text) => SearchMeans(r, field, text);
    case JsonKey(None, pattern) => KeyLeaf(r, pattern);
    case JsonKey(Some(field), pattern) => KeyAtPath(r, field, pattern);
    case JsonKeySearch(None, path, text) => TextHit(r, SP.ExactPath(path), text);
    case JsonKeySearch(Some(field), path, text) => TextOnPath(r, field, path, text);
    case Compare(op, field, value) => ValueInPlace(r, field, value);
    case Has(field, value) =>
      KeyAtPath(r, field, AsString(value));
      PrintedKey(r, field, value);
    case In(field, values) =>
      forall value
        ensures InSomeScope(field, (s: SP.SearchField) => OnRecord(r)(SP.ExactValue(s, AsString(value)))) <==> ValueInField(r, field, value)
      {
        ValueInPlace(r, field, value);
      }
    case Contains(field, value, negated) =>
      TextInScope(r, field, AsString(value));
      PrintedText(r, field, value);
  }

  lemma {:induction false} ValueLeaf(r: Record, place: SP.SearchField, text: ByteString)
    ensures OnRecord(r)(SP.ExactValue(place, text)) <==> ValueFound(r, place, text)
  {
  }

  lemma {:induction false} KeyLeaf(r: Record, pattern: ByteString)
    ensures OnRecord(r)(SP.JsonKey(pattern)) <==> KeyFound(r, pattern)
  {
  }

  /** A search atom's predicate matches exactly the records of which the atom is true. */
  lemma {:induction false} AtomSearches(f: Filter, r: Record)
    requires IsSearchAtom(f) && AtomPredicate(f).Ok?
    ensures AsksIndex(f) && AtomPredicate(f).value.Some?
    ensures Matches(r, AtomPredicate(f).value.value) <==> AtomOnRecord(f, r)
  {
    AtomAgrees(f, OnRecord(r));
    AtomMeans(f, r);
    hide AtomPredicate, SearchAtomHolds, AtomOnRecord, Matches;
    EvalIsMatches(r, AtomPredicate(f).value.value);
  }

  // ---- whole filters ----

  /** A filter whose split succeeds has atoms the index can be asked. */
  lemma {:induction false} HoldsOnRecord(f: Filter, r: Record, scalar: Filter -> bool)
    requires forall a :: IsSearchAtom(a) && InFilter(f, a) ==> AtomPredicate(a).Ok?
    ensures Holds(f, scalar, OnRecord(r)) <==> FilterOnRecord(f, r, scalar)
  {
    hide AtomPredicate, SearchAtomHolds, AtomOnRecord, OnRecord;
    SameAtoms(f);
    match f
    case And(children) =>
      forall i | 0 <= i < |children|
        ensures Holds(children[i], scalar, OnRecord(r)) <==> FilterOnRecord(children[i], r, scalar)
      {
        InChild(f, i);
        HoldsOnRecord(children[i], r, scalar);
      }
    case Or(children) =>
      forall i | 0 <= i < |children|
        ensures Holds(children[i], scalar, OnRecord(r)) <==> FilterOnRecord(children[i], r, scalar)
      {
        InChild(f, i);
        HoldsOnRecord(children[i], r, scalar);
      }
    case _ =>
      if IsSearchAtom(f) {
        AtomMeans(f, r);
      }
  }

  predicate InFilter(f: Filter, a: Filter) {
    match f
    case And(children) => exists i :: 0 <= i < |children| && InFilter(children[i], a)
    case Or(children) => exists i :: 0 <= i < |children| && InFilter(children[i], a)
    case _ => f == a
  }

  lemma {:induction false} InChild(f: Filter, i: nat)
    requires (f.And? || f.Or?) && i < |f.children|
    ensures forall a :: InFilter(f.children[i], a) ==> InFilter(f, a)
  {
  }

  lemma {:induction false} AtomsTranslate(f: Filter, a: Filter)
    requires PredicateFor(f).Ok? && InFilter(f, a) && IsSearchAtom(a)
    ensures ContainsSearchAtom(f) && AtomPredicate(a).Ok?
  {
    hide AtomPredicate, CombineAnd, CombineOr, IsSearchAtom;
    if f.And? || f.Or? {
      var i :| 0 <= i < |f.children| && InFilter(f.children[i], a);
      SearchAtomBelow(f.children[i], a);
      assert ContainsSearchAtom(f);
      var results := seq(|f.children|, i requires 0 <= i < |f.children| => PredicateFor(f.children[i]));
      if f.And? {
        CollectSomeKeeps(results, (p: SP.SearchPredicate) => true);
      } else {
        CollectAllKeeps(results);
      }
      assert results[i].Ok?;
      AtomsTranslate(f.children[i], a);
    }
  }

  lemma {:induction false} SearchAtomBelow(f: Filter, a: Filter)
    requires InFilter(f, a) && IsSearchAtom(a)
    ensures ContainsSearchAtom(f)
  {
    if f.And? || f.Or? {
      var i :| 0 <= i < |f.children| && InFilter(f.children[i], a);
      SearchAtomBelow(f.children[i], a);
    }
  }

  /** The record passes the columns' half and matches the search half. */
  ghost predicate SplitOnRecord(f: Filter, r: Record, scalar: Filter -> bool)
    requires PredicateFor(f).Ok? && ScalarPrefilter(f).Ok?
  {
    && (ScalarPrefilter(f).value.Some? ==> Holds(ScalarPrefilter(f).value.value, scalar, OnRecord(r)))
    && (PredicateFor(f).value.Some? ==> Matches(r, PredicateFor(f).value.value))
  }

  /** With nothing false dropped, the two halves together find exactly the records the filter is true of. */
  lemma {:induction false} SplitFindsRecords(f: Filter, r: Record, scalar: Filter -> bool)
    requires PredicateFor(f).Ok? && ScalarPrefilter(f).Ok? && NothingFalseDropped(f, false)
    ensures SplitOnRecord(f, r, scalar) <==> FilterOnRecord(f, r, scalar)
  {
    SplitPreservesMeaning(f, scalar, OnRecord(r));
    forall a | IsSearchAtom(a) && InFilter(f, a)
      ensures AtomPredicate(a).Ok?
    {
      AtomsTranslate(f, a);
    }
    HoldsOnRecord(f, r, scalar);
    HalvesOnRecord(f, r, scalar);
  }

  lemma {:induction false} HalvesOnRecord(f: Filter, r: Record, scalar: Filter -> bool)
    requires PredicateFor(f).Ok? && ScalarPrefilter(f).Ok?
    ensures SplitOnRecord(f, r, scalar) <==> SplitHolds(f, scalar, OnRecord(r))
  {
    hide PredicateFor, ScalarPrefilter, Holds, Matches, SP.Eval, OnRecord;
    if PredicateFor(f).value.Some? {
      EvalIsMatches(r, PredicateFor(f).value.value);
    }
  }

  // ---- the search half can be asked of an index ----

  lemma {:induction false} OrValid(predicates: seq<SP.SearchPredicate>)
    requires forall i :: 0 <= i < |predicates| ==> QueriesValid(predicates[i])
    ensures QueriesValid(OneOrAny(predicates)) && QueriesValid(SP.Or(predicates))
    ensures CombineOr(predicates).Some? ==> QueriesValid(CombineOr(predicates).value)
    ensures CombineAnd(predicates).Some? ==> QueriesValid(CombineAnd(predicates).value)
  {
    hide SP.ValidQuery;
    assert QueriesValid(SP.Or(predicates)) && QueriesValid(SP.And(predicates));
  }

  lemma {:induction false} PayloadsValid(field: Field, query: SP.SearchQuery, text: ByteString)
    requires SP.ValidQuery(query)
    ensures QueriesValid(PayloadText(field, query)) && QueriesValid(PayloadExactValue(field, text))
    ensures QueriesValid(PayloadPath(field, text)) && QueriesValid(PayloadExactPathText(field, text, query))
  {
    hide SP.ValidQuery, JoinPath;
    var scopes, prefixes := PayloadScopes(field), PayloadPrefixes(field);
    OrValid(seq(|scopes|, i requires 0 <= i < |scopes| => SP.Text(scopes[i], query)));
    OrValid(seq(|scopes|, i requires 0 <= i < |scopes| => SP.ExactValue(scopes[i], text)));
    OrValid(seq(|prefixes|, i requires 0 <= i < |prefixes| => SP.JsonKey(JoinPath(prefixes[i], text))));
    OrValid(seq(|prefixes|, i requires 0 <= i < |prefixes| => SP.Text(SP.ExactPath(JoinPath(prefixes[i], text)), query)));
  }

  lemma {:induction false} AtomValid(f: Filter)
    requires AtomPredicate(f).Ok? && AtomPredicate(f).value.Some?
    ensures QueriesValid(AtomPredicate(f).value.value)
  {
    hide PayloadText, PayloadExactValue, PayloadExactPathText, PayloadPath, SP.ParseQuery, SP.ValidQuery, AsString, CombineOr;
    match f
    case Search(field, text) =>
      SP.ParsedQueriesValid(text);
      if field.Some? {
        PayloadsValid(field.value, SP.ParseQuery(text), []);
      }
    case JsonKey(field, pattern) =>
      SP.ParsedQueriesValid([]);
      if field.Some? {
        PayloadsValid(field.value, SP.ParseQuery([]), pattern);
      }
    case JsonKeySearch(field, path, text) =>
      SP.ParsedQueriesValid(text);
      if field.Some? {
        PayloadsValid(field.value, SP.ParseQuery(text), path);
      }
    case Compare(_, field, value) =>
      SP.ParsedQueriesValid([]);
      PayloadsValid(field, SP.ParseQuery([]), AsString(value));
    case Has(field, value) =>
      SP.ParsedQueriesValid([]);
      PayloadsValid(field, SP.ParseQuery([]), AsString(value));
    case In(field, values) => ValuesValid(field, values);
    case Contains(field, value, _) =>
      SP.ParsedQueriesValid(AsString(value));
      PayloadsValid(field, SP.ParseQuery(AsString(value)), []);
    case _ =>
  }

  lemma {:induction false} ValuesValid(field: Field, values: seq<Value>)
    requires AtomPredicate(In(field, values)).Ok? && AtomPredicate(In(field, values)).value.Some?
    ensures QueriesValid(AtomPredicate(In(field, values)).value.value)
  {
    var parts := ValueParts(field, values);
    InHolds(field, values, (p: SP.SearchPredicate) => true);
    hide PayloadExactValue, AsString, SP.ParseQuery, CombineOr, AtomPredicate;
    forall i | 0 <= i < |parts|
      ensures QueriesValid(parts[i])
    {
      SP.ParsedQueriesValid([]);
      PayloadsValid(field, SP.ParseQuery([]), AsString(values[i]));
    }
    OrValid(parts);
  }

  /** The search half of a filter only asks queries that parsing can give. */
  lemma {:induction false} SearchHalfValid(f: Filter)
    requires PredicateFor(f).Ok? && PredicateFor(f).value.Some?
    ensures QueriesValid(PredicateFor(f).value.value)
  {
    hide AtomPredicate, CombineAnd, CombineOr, QueriesValid;
    match f
    case And(children) =>
      var results := seq(|children|, i requires 0 <= i < |children| => PredicateFor(children[i]));
      CollectSomeKeeps(results, (p: SP.SearchPredicate) => QueriesValid(p));
      forall i | 0 <= i < |results| && results[i].value.Some?
        ensures QueriesValid(results[i].value.value)
      {
        SearchHalfValid(children[i]);
      }
      OrValid(CollectSome(results).value);
    case Or(children) =>
      var results := seq(|children|, i requires 0 <= i < |children| => PredicateFor(children[i]));
      CollectAllKeeps(results);
      var predicates := CollectAll(results).value;
      forall i | 0 <= i < |predicates|
        ensures QueriesValid(predicates[i])
      {
        assert results[i] == Ok(Some(predicates[i]));
        SearchHalfValid(children[i]);
      }
      OrValid(predicates);
    case _ => AtomValid(f);
  }

  // ---- which filters can be split ----

  /** The index can answer the atom. */
  predicate Answerable(f: Filter) {
    match f
    case Search(Some(field), _) => Searched(field) || field.Name? || field.RunType? || field.Status?
    case JsonKey(Some(field), _) => Searched(field)
    case JsonKeySearch(Some(field), _, _) => Searched(field)
    case Compare(op, field, _) => Searched(field) ==> op == Eq || op == Neq
    case In(field, values) => Searched(field) ==> values != []
    case _ => true
  }

  ghost predicate AsksSomewhere(f: Filter) {
    exists a :: InFilter(f, a) && AsksIndex(a)
  }

  ghost predicate ColumnSomewhere(f: Filter) {
    exists a :: InFilter(f, a) && !AsksIndex(a)
  }

  /** An `or()` is about columns only, or about the index only and then in every branch; every atom can be answered. */
  ghost predicate Splittable(f: Filter) {
    match f
    case And(children) => forall i :: 0 <= i < |children| ==> Splittable(children[i])
    case Or(children) =>
      || !AsksSomewhere(f)
      || (!ColumnSomewhere(f) && forall i :: 0 <= i < |children| ==> AsksSomewhere(children[i]) && Splittable(children[i]))
    case _ => Answerable(f)
  }

  lemma {:induction false} ContainsIs(f: Filter)
    ensures ContainsSearchAtom(f) <==> AsksSomewhere(f)
    ensures ContainsScalarAtom(f) <==> ColumnSomewhere(f)
  {
    SameAtoms(f);
    hide IsSearchAtom, AsksIndex;
    if f.And? || f.Or? {
      forall i | 0 <= i < |f.children|
        ensures ContainsSearchAtom(f.children[i]) <==> AsksSomewhere(f.children[i])
        ensures ContainsScalarAtom(f.children[i]) <==> ColumnSomewhere(f.children[i])
      {
        ContainsIs(f.children[i]);
      }
      SomewhereBelow(f);
      hide AsksSomewhere, ColumnSomewhere;
    } else {
      assert InFilter(f, f);
    }
  }

  lemma {:induction false} SomewhereBelow(f: Filter)
    requires f.And? || f.Or?
    ensures AsksSomewhere(f) <==> exists i :: 0 <= i < |f.children| && AsksSomewhere(f.children[i])
    ensures ColumnSomewhere(f) <==> exists i :: 0 <= i < |f.children| && ColumnSomewhere(f.children[i])
  {
    hide AsksIndex;
    if i :| 0 <= i < |f.children| && AsksSomewhere(f.children[i]) {
      var a :| InFilter(f.children[i], a) && AsksIndex(a);
      assert InFilter(f, a);
    }
    if i :| 0 <= i < |f.children| && ColumnSomewhere(f.children[i]) {
      var a :| InFilter(f.children[i], a) && !AsksIndex(a);
      assert InFilter(f, a);
    }
  }

  lemma {:induction false} AtomAnswerable(f: Filter)
    requires !f.And? && !f.Or?
    ensures AtomPredicate(f).Ok? <==> Answerable(f)
  {
    hide PayloadText, PayloadExactValue, PayloadExactPathText, PayloadPath, SP.ParseQuery, AsString, CombineOr;
  }

  lemma {:induction false} AllCollect<T>(results: seq<Result<Option<T>, FilterError>>)
    ensures CollectSome(results).Ok? <==> forall i :: 0 <= i < |results| ==> results[i].Ok?
    ensures CollectAll(results).Ok? <==> forall i :: 0 <= i < |results| ==> results[i].Ok? && results[i].value.Some?
  {
    if results != [] {
      AllCollect(results[1..]);
      assert forall i :: 0 < i < |results| ==> results[i] == results[1..][i - 1];
      assert forall i :: 0 <= i < |results[1..]| ==> results[1..][i] == results[i + 1];
    }
  }

  /** The predicate half succeeds exactly for the splittable filters. */
  lemma {:induction false} PredicateSucceeds(f: Filter)
    ensures PredicateFor(f).Ok? <==> Splittable(f)
  {
    hide AtomPredicate, CombineAnd, CombineOr, Answerable;
    match f
    case And(children) =>
      var results := seq(|children|, i requires 0 <= i < |children| => PredicateFor(children[i]));
      forall i | 0 <= i < |children|
        ensures results[i].Ok? <==> Splittable(children[i])
      {
        PredicateSucceeds(children[i]);
      }
      AllCollect(results);
    case Or(children) =>
      ContainsIs(f);
      if AsksSomewhere(f) && !ColumnSomewhere(f) {
        var results := seq(|children|, i requires 0 <= i < |children| => PredicateFor(children[i]));
        forall i | 0 <= i < |children|
          ensures results[i].Ok? <==> Splittable(children[i])
          ensures results[i].Ok? ==> (results[i].value.Some? <==> AsksSomewhere(children[i]))
        {
          PredicateSucceeds(children[i]);
          BranchPresent(f, i);
        }
        AllCollect(results);
        hide AsksSomewhere, ColumnSomewhere;
        assert PredicateFor(f).Ok? <==> CollectAll(results).Ok? by { OrPredicate(f); }
      }
    case _ => AtomAnswerable(f);
  }

  lemma {:induction false} BranchPresent(f: Filter, i: nat)
    requires f.Or? && i < |f.children| && !ColumnSomewhere(f)
    ensures PredicateFor(f.children[i]).Ok? ==> (PredicateFor(f.children[i]).value.Some? <==> AsksSomewhere(f.children[i]))
  {
    SomewhereBelow(f);
    ContainsIs(f.children[i]);
    hide PredicateFor, ContainsSearchAtom, ContainsScalarAtom, AsksSomewhere, ColumnSomewhere;
    if PredicateFor(f.children[i]).Ok? {
      SearchOnly(f.children[i], (a: Filter) => true, (p: SP.SearchPredicate) => true);
    }
  }

  lemma {:induction false} PrefilterSucceeds(f: Filter)
    requires PredicateFor(f).Ok?
    ensures ScalarPrefilter(f).Ok?
  {
    hide AtomPredicate, CombineAnd, CombineOr;
    match f
    case And(children) =>
      var results := seq(|children|, i requires 0 <= i < |children| => PredicateFor(children[i]));
      var prefilters := seq(|children|, i requires 0 <= i < |children| => ScalarPrefilter(children[i]));
      AllCollect(results);
      forall i | 0 <= i < |children|
        ensures prefilters[i].Ok?
      {
        assert results[i].Ok?;
        PrefilterSucceeds(children[i]);
      }
      AllCollect(prefilters);
    case _ =>
  }

  /** Both halves are found exactly for the splittable filters; every other filter is refused. */
  lemma {:induction false} SplitSucceedsIff(f: Filter)
    ensures PredicateFor(f).Ok? && ScalarPrefilter(f).Ok? <==> Splittable(f)
  {
    PredicateSucceeds(f);
    hide PredicateFor, ScalarPrefilter, Splittable;
    if PredicateFor(f).Ok? {
      PrefilterSucceeds(f);
    }
  }
}
