/**
 Splitting one filter into a scalar prefilter, which SQL evaluates over run heads, and
 a search predicate, which the full-text index evaluates (src/query/filter/phase6.rs).

 What a filter means is defined here on its own: a scalar atom is true or false of a
 run by an arbitrary valuation, and a search atom by the index leaves its field ranges
 over.  The split is then shown to say the same thing, for every filter and valuation.
 */
module FilterSplit {
  import opened Wrappers
  import opened Bytes
  import SP = SearchPredicates

  datatype CompareOp = Eq | Neq | Gt | Gte | Lt | Lte

  datatype Field = Inputs | Outputs | Extra | AttributesJson | Name | RunType | Status | ScalarField(name: string)

  /** `text` is how the number prints. */
  datatype Value = StringValue(value: ByteString) | NumberValue(text: ByteString) | BoolValue(flag: bool)

  datatype Filter =
    | And(children: seq<Filter>)
    | Or(children: seq<Filter>)
    | Compare(op: CompareOp, field: Field, value: Value)
    | Has(field: Field, value: Value)
    | In(field: Field, values: seq<Value>)
    | Contains(field: Field, value: Value, negated: bool)
    | Search(within: Option<Field>, query: ByteString)
    | JsonKey(within: Option<Field>, pattern: ByteString)
    | JsonKeySearch(within: Option<Field>, path: ByteString, query: ByteString)

  datatype FilterError = Parse | MixedOr | EmptySearchBranch | UnsupportedField(field: Field) | UnsupportedCompare

  type Split = Result<Option<SP.SearchPredicate>, FilterError>

  // ---- atoms ----

  predicate IsPayload(field: Field) {
    field in {Inputs, Outputs, Extra, AttributesJson}
  }

  function AsString(value: Value): ByteString {
    match value
    case StringValue(s) => s
    case NumberValue(text) => text
    case BoolValue(flag) => if flag then Ascii("true") else Ascii("false")
  }

  predicate IsSearchAtom(f: Filter) {
    match f
    case Search(_, _) | JsonKey(_, _) | JsonKeySearch(_, _, _) => true
    case Compare(_, field, _) => IsPayload(field)
    case Has(field, _) => IsPayload(field)
    case In(field, _) => IsPayload(field)
    case Contains(field, _, _) => IsPayload(field)
    case And(_) | Or(_) => false
  }

  predicate ContainsSearchAtom(f: Filter) {
    match f
    case And(children) => exists i :: 0 <= i < |children| && ContainsSearchAtom(children[i])
    case Or(children) => exists i :: 0 <= i < |children| && ContainsSearchAtom(children[i])
    case _ => IsSearchAtom(f)
  }

  predicate ContainsScalarAtom(f: Filter) {
    match f
    case And(children) => exists i :: 0 <= i < |children| && ContainsScalarAtom(children[i])
    case Or(children) => exists i :: 0 <= i < |children| && ContainsScalarAtom(children[i])
    case _ => !IsSearchAtom(f)
  }

  function PayloadPrefixes(field: Field): seq<ByteString> {
    match field
    case Inputs => [Ascii("langsmith.inputs"), Ascii("inputs")]
    case Outputs => [Ascii("langsmith.outputs"), Ascii("outputs")]
    case Extra => [Ascii("langsmith.extra"), Ascii("extra")]
    case _ => []
  }

  function PayloadScopes(field: Field): seq<SP.SearchField> {
    match field
    case Inputs => [SP.PathPrefix(Ascii("langsmith.inputs")), SP.PathPrefix(Ascii("inputs"))]
    case Outputs => [SP.PathPrefix(Ascii("langsmith.outputs")), SP.PathPrefix(Ascii("outputs"))]
    case Extra => [SP.PathPrefix(Ascii("langsmith.extra")), SP.PathPrefix(Ascii("extra"))]
    case AttributesJson => [SP.AllPaths]
    case _ => []
  }

  function JoinPath(prefix: ByteString, suffix: ByteString): ByteString {
    if suffix == [] then prefix else prefix + ['.' as int] + suffix
  }

  function IndexedTextPath(field: Field): Option<ByteString> {
    match field
    case Name => Some(Ascii("name"))
    case RunType => Some(Ascii("run_type"))
    case Status => Some(Ascii("status"))
    case _ => None
  }

  function OneOrAny(predicates: seq<SP.SearchPredicate>): SP.SearchPredicate {
    if |predicates| == 1 then predicates[0] else SP.Or(predicates)
  }

  function PayloadText(field: Field, query: SP.SearchQuery): SP.SearchPredicate {
    var scopes := PayloadScopes(field);
    OneOrAny(seq(|scopes|, i requires 0 <= i < |scopes| => SP.Text(scopes[i], query)))
  }

  function PayloadExactValue(field: Field, value: ByteString): SP.SearchPredicate {
    var scopes := PayloadScopes(field);
    OneOrAny(seq(|scopes|, i requires 0 <= i < |scopes| => SP.ExactValue(scopes[i], value)))
  }

  function PayloadExactPathText(field: Field, path: ByteString, query: SP.SearchQuery): SP.SearchPredicate {
    var prefixes := PayloadPrefixes(field);
    if prefixes == [] then SP.Text(SP.ExactPath(path), query)
    else SP.Or(seq(|prefixes|, i requires 0 <= i < |prefixes| => SP.Text(SP.ExactPath(JoinPath(prefixes[i], path)), query)))
  }

  function PayloadPath(field: Field, suffix: ByteString): SP.SearchPredicate {
    var prefixes := PayloadPrefixes(field);
    if prefixes == [] then SP.JsonKey(suffix)
    else SP.Or(seq(|prefixes|, i requires 0 <= i < |prefixes| => SP.JsonKey(JoinPath(prefixes[i], suffix))))
  }

  /** `phase6_atom_predicate`. */
  function AtomPredicate(f: Filter): Split {
    match f
    case Search(None, query) => Ok(Some(SP.Text(SP.AllPaths, SP.ParseQuery(query))))
    case Search(Some(field), query) =>
      if IsPayload(field) then Ok(Some(PayloadText(field, SP.ParseQuery(query))))
      else if IndexedTextPath(field).Some? then Ok(Some(SP.Text(SP.ExactPath(IndexedTextPath(field).value), SP.ParseQuery(query))))
      else Err(UnsupportedField(field))
    case JsonKey(None, pattern) => Ok(Some(SP.JsonKey(pattern)))
    case JsonKey(Some(field), pattern) =>
      if IsPayload(field) then Ok(Some(PayloadPath(field, pattern))) else Err(UnsupportedField(field))
    case JsonKeySearch(None, path, query) => Ok(Some(SP.Text(SP.ExactPath(path), SP.ParseQuery(query))))
    case JsonKeySearch(Some(field), path, query) =>
      if IsPayload(field) then Ok(Some(PayloadExactPathText(field, path, SP.ParseQuery(query)))) else Err(UnsupportedField(field))
    case Compare(op, field, value) =>
      if !IsPayload(field) then Ok(None)
      else if op == Eq then Ok(Some(PayloadExactValue(field, AsString(value))))
      else if op == Neq then Ok(Some(SP.Not(PayloadExactValue(field, AsString(value)))))
      else Err(UnsupportedCompare)
    case Has(field, value) =>
      if IsPayload(field) then Ok(Some(PayloadPath(field, AsString(value)))) else Ok(None)
    case In(field, values) =>
      if !IsPayload(field) then Ok(None)
      else if values == [] then Err(Parse)
      else Ok(CombineOr(seq(|values|, i requires 0 <= i < |values| => PayloadExactValue(field, AsString(values[i])))))
    case Contains(field, value, negated) =>
      if !IsPayload(field) then Ok(None)
      else
        var text := PayloadText(field, SP.ParseQuery(AsString(value)));
        Ok(Some(if negated then SP.Not(text) else text))
    case And(_) | Or(_) => Ok(None)
  }

  // ---- the split ----

  function CombineAnd(predicates: seq<SP.SearchPredicate>): Option<SP.SearchPredicate> {
    if |predicates| == 0 then None else if |predicates| == 1 then Some(predicates[0]) else Some(SP.And(predicates))
  }

  function CombineOr(predicates: seq<SP.SearchPredicate>): Option<SP.SearchPredicate> {
    if |predicates| == 0 then None else if |predicates| == 1 then Some(predicates[0]) else Some(SP.Or(predicates))
  }

  /** The first error of a left-to-right pass, or every value that is present. */
  function CollectSome<T>(results: seq<Result<Option<T>, FilterError>>): Result<seq<T>, FilterError> {
    if results == [] then Ok([])
    else match results[0]
      case Err(e) => Err(e)
      case Ok(first) =>
        match CollectSome(results[1..])
        case Err(e) => Err(e)
        case Ok(rest) => Ok(if first.Some? then [first.value] + rest else rest)
  }

  /** A left-to-right pass in which an absent value is an error too. */
  function CollectAll<T>(results: seq<Result<Option<T>, FilterError>>): Result<seq<T>, FilterError> {
    if results == [] then Ok([])
    else match results[0]
      case Err(e) => Err(e)
      case Ok(None) => Err(EmptySearchBranch)
      case Ok(Some(first)) =>
        match CollectAll(results[1..])
        case Err(e) => Err(e)
        case Ok(rest) => Ok([first] + rest)
  }

  /** `phase6_predicate_for_expr`. */
  function PredicateFor(f: Filter): Split {
    match f
    case And(children) =>
      (match CollectSome(seq(|children|, i requires 0 <= i < |children| => PredicateFor(children[i])))
       case Err(e) => Err(e)
       case Ok(predicates) => Ok(CombineAnd(predicates)))
    case Or(children) =>
      if !ContainsSearchAtom(f) then Ok(None)
      else if ContainsScalarAtom(f) then Err(MixedOr)
      else
        (match CollectAll(seq(|children|, i requires 0 <= i < |children| => PredicateFor(children[i])))
         case Err(e) => Err(e)
         case Ok(predicates) => Ok(CombineOr(predicates)))
    case _ => AtomPredicate(f)
  }

  /** `scalar_prefilter_expr`. */
  function ScalarPrefilter(f: Filter): Result<Option<Filter>, FilterError> {
    match f
    case And(children) =>
      (match CollectSome(seq(|children|, i requires 0 <= i < |children| => ScalarPrefilter(children[i])))
       case Err(e) => Err(e)
       case Ok(kept) => Ok(if |kept| == 0 then None else if |kept| == 1 then Some(kept[0]) else Some(And(kept))))
    case Or(_) =>
      if !ContainsSearchAtom(f) then Ok(Some(f))
      else if ContainsScalarAtom(f) then Err(MixedOr)
      else Ok(None)
    case _ => if IsSearchAtom(f) then Ok(None) else Ok(Some(f))
  }

  lemma {:induction false} CollectSomeAppend<T>(a: seq<Result<Option<T>, FilterError>>, b: seq<Result<Option<T>, FilterError>>)
    ensures CollectSome(a + b)
         == if CollectSome(a).Err? then CollectSome(a)
            else if CollectSome(b).Err? then CollectSome(b)
            else Ok(CollectSome(a).value + CollectSome(b).value)
  {
    if a == [] {
      assert a + b == b;
      assert CollectSome(b).Ok? ==> [] + CollectSome(b).value == CollectSome(b).value;
    } else {
      CollectSomeAppend(a[1..], b);
      assert (a + b)[1..] == a[1..] + b;
      if CollectSome(a).Ok? && CollectSome(b).Ok? {
        var rest, more := CollectSome(a[1..]).value, CollectSome(b).value;
        if a[0].value.Some? {
          assert ([a[0].value.value] + rest) + more == [a[0].value.value] + (rest + more);
        }
      }
    }
  }

  lemma {:induction false} CollectOne<T>(result: Result<Option<T>, FilterError>)
    ensures CollectSome([result])
         == match result case Err(e) => Err(e) case Ok(v) => Ok(if v.Some? then [v.value] else [])
  {
    assert CollectSome([result][1..]) == Ok([]);
    if result.Ok? && result.value.Some? {
      assert [result.value.value] + [] == [result.value.value];
    }
  }

  /** One more result after those already collected. */
  lemma {:induction false} CollectNext<T>(results: seq<Result<Option<T>, FilterError>>, i: nat, collected: seq<T>)
    requires i < |results| && CollectSome(results[..i]) == Ok(collected)
    ensures results[i].Ok? ==>
      CollectSome(results[..i + 1]) == Ok(if results[i].value.Some? then collected + [results[i].value.value] else collected)
    ensures results[i].Err? ==> CollectSome(results) == Err(results[i].error)
  {
    CollectSomeAppend(results[..i], [results[i]]);
    CollectOne(results[i]);
    assert results[..i + 1] == results[..i] + [results[i]];
    CollectSomeAppend(results[..i + 1], results[i + 1..]);
    assert results == results[..i + 1] + results[i + 1..];
    hide CollectSome;
    if results[i].Ok? && results[i].value.None? {
      assert collected + [] == collected;
    }
  }

  /** The `and()` arm of `phase6_predicate_for_expr`, with the list it pushes to. */
  method AndPredicate(children: seq<Filter>) returns (split: Split)
    ensures split == PredicateFor(And(children))
  {
    ghost var results := seq(|children|, i requires 0 <= i < |children| => PredicateFor(children[i]));
    assert PredicateFor(And(children)) == match CollectSome(results) case Err(e) => Err(e) case Ok(ps) => Ok(CombineAnd(ps)) by {
      assert seq(|children|, i requires 0 <= i < |children| => PredicateFor(And(children).children[i])) == results;
    }
    var predicates := [];
    for i := 0 to |children|
      invariant CollectSome(results[..i]) == Ok(predicates)
    {
      CollectNext(results, i, predicates);
      var child := PredicateFor(children[i]);
      if child.Err? {
        return child;
      }
      if child.value.Some? {
        predicates := predicates + [child.value.value];
      }
    }
    assert results[..|children|] == results;
    return Ok(CombineAnd(predicates));
  }

  /** The `and()` arm of `scalar_prefilter_expr`. */
  method AndPrefilter(children: seq<Filter>) returns (prefilter: Result<Option<Filter>, FilterError>)
    ensures prefilter == ScalarPrefilter(And(children))
  {
    ghost var results := seq(|children|, i requires 0 <= i < |children| => ScalarPrefilter(children[i]));
    assert seq(|children|, i requires 0 <= i < |children| => ScalarPrefilter(And(children).children[i])) == results;
    var kept := [];
    for i := 0 to |children|
      invariant CollectSome(results[..i]) == Ok(kept)
    {
      CollectNext(results, i, kept);
      var child := ScalarPrefilter(children[i]);
      if child.Err? {
        return child;
      }
      if child.value.Some? {
        kept := kept + [child.value.value];
      }
    }
    assert results[..|children|] == results;
    return Ok(if |kept| == 0 then None else if |kept| == 1 then Some(kept[0]) else Some(And(kept)));
  }

  // ---- what a filter means ----

  /** One of the places where the payload field may stand satisfies `hit`. */
  predicate InSomeScope(field: Field, hit: SP.SearchField -> bool) {
    match field
    case Inputs => hit(SP.PathPrefix(Ascii("inputs"))) || hit(SP.PathPrefix(Ascii("langsmith.inputs")))
    case Outputs => hit(SP.PathPrefix(Ascii("outputs"))) || hit(SP.PathPrefix(Ascii("langsmith.outputs")))
    case Extra => hit(SP.PathPrefix(Ascii("extra"))) || hit(SP.PathPrefix(Ascii("langsmith.extra")))
    case AttributesJson => hit(SP.AllPaths)
    case _ => false
  }

  /** The path itself, or what hangs below it behind a dot. */
  function Dotted(top: ByteString, suffix: ByteString): ByteString {
    top + if suffix == [] then [] else Ascii(".") + suffix
  }

  /** One spelling of a path below the payload field satisfies `hit`; the whole attribute tree has no prefix. */
  predicate AtSomePath(field: Field, suffix: ByteString, hit: ByteString -> bool) {
    match field
    case Inputs => hit(Dotted(Ascii("inputs"), suffix)) || hit(Dotted(Ascii("langsmith.inputs"), suffix))
    case Outputs => hit(Dotted(Ascii("outputs"), suffix)) || hit(Dotted(Ascii("langsmith.outputs"), suffix))
    case Extra => hit(Dotted(Ascii("extra"), suffix)) || hit(Dotted(Ascii("langsmith.extra"), suffix))
    case AttributesJson => hit(suffix)
    case _ => false
  }

  /** The scopes the split asks are those places. */
  lemma {:induction false} ScopesAre(field: Field, hit: SP.SearchField -> bool)
    ensures InSomeScope(field, hit) <==> exists i :: 0 <= i < |PayloadScopes(field)| && hit(PayloadScopes(field)[i])
  {
    hide Ascii;
    var scopes := PayloadScopes(field);
    if |scopes| == 2 {
      assert (exists i :: 0 <= i < |scopes| && hit(scopes[i])) <==> hit(scopes[0]) || hit(scopes[1]);
    } else if |scopes| == 1 {
      assert (exists i :: 0 <= i < |scopes| && hit(scopes[i])) <==> hit(scopes[0]);
    }
  }

  lemma {:induction false} JoinIsDotted(top: ByteString, suffix: ByteString)
    ensures JoinPath(top, suffix) == Dotted(top, suffix)
  {
    assert Ascii(".") == ['.' as int];
  }

  /** So are the paths it joins. */
  lemma {:induction false} PathsAre(field: Field, suffix: ByteString, hit: ByteString -> bool)
    requires IsPayload(field)
    ensures AtSomePath(field, suffix, hit) <==>
            if PayloadPrefixes(field) == [] then hit(suffix)
            else exists i :: 0 <= i < |PayloadPrefixes(field)| && hit(JoinPath(PayloadPrefixes(field)[i], suffix))
  {
    hide Ascii, JoinPath, Dotted;
    var prefixes := PayloadPrefixes(field);
    if prefixes != [] {
      JoinIsDotted(prefixes[0], suffix);
      JoinIsDotted(prefixes[1], suffix);
      assert |prefixes| == 2;
      assert (exists i :: 0 <= i < |prefixes| && hit(JoinPath(prefixes[i], suffix))) <==>
             hit(JoinPath(prefixes[0], suffix)) || hit(JoinPath(prefixes[1], suffix));
    }
  }

  predicate SearchAtomHolds(f: Filter, leaf: SP.SearchPredicate -> bool)
    requires IsSearchAtom(f)
  {
    match f
    case Search(None, query) => leaf(SP.Text(SP.AllPaths, SP.ParseQuery(query)))
    case Search(Some(field), query) =>
      (match field
       case Name => leaf(SP.Text(SP.ExactPath(Ascii("name")), SP.ParseQuery(query)))
       case RunType => leaf(SP.Text(SP.ExactPath(Ascii("run_type")), SP.ParseQuery(query)))
       case Status => leaf(SP.Text(SP.ExactPath(Ascii("status")), SP.ParseQuery(query)))
       case _ => InSomeScope(field, (s: SP.SearchField) => leaf(SP.Text(s, SP.ParseQuery(query)))))
    case JsonKey(None, pattern) => leaf(SP.JsonKey(pattern))
    case JsonKey(Some(field), pattern) => AtSomePath(field, pattern, (p: ByteString) => leaf(SP.JsonKey(p)))
    case JsonKeySearch(None, path, query) => leaf(SP.Text(SP.ExactPath(path), SP.ParseQuery(query)))
    case JsonKeySearch(Some(field), path, query) =>
      AtSomePath(field, path, (p: ByteString) => leaf(SP.Text(SP.ExactPath(p), SP.ParseQuery(query))))
    case Compare(op, field, value) =>
      (op == Eq) == InSomeScope(field, (s: SP.SearchField) => leaf(SP.ExactValue(s, AsString(value))))
    case Has(field, value) => AtSomePath(field, AsString(value), (p: ByteString) => leaf(SP.JsonKey(p)))
    case In(field, values) =>
      exists v :: v in values && InSomeScope(field, (s: SP.SearchField) => leaf(SP.ExactValue(s, AsString(v))))
    case Contains(field, value, negated) =>
      negated != InSomeScope(field, (s: SP.SearchField) => leaf(SP.Text(s, SP.ParseQuery(AsString(value)))))
  }

  predicate Holds(f: Filter, scalar: Filter -> bool, leaf: SP.SearchPredicate -> bool) {
    match f
    case And(children) => forall i :: 0 <= i < |children| ==> Holds(children[i], scalar, leaf)
    case Or(children) => exists i :: 0 <= i < |children| && Holds(children[i], scalar, leaf)
    case _ => if IsSearchAtom(f) then SearchAtomHolds(f, leaf) else scalar(f)
  }

  predicate PrefilterHolds(prefilter: Option<Filter>, scalar: Filter -> bool, leaf: SP.SearchPredicate -> bool) {
    prefilter.None? || Holds(prefilter.value, scalar, leaf)
  }

  predicate SearchHolds(search: Option<SP.SearchPredicate>, leaf: SP.SearchPredicate -> bool) {
    search.None? || SP.Eval(search.value, leaf)
  }

  /**
   What the split keeps of a filter.  Below an `or()` of search branches, a part without
   any atom (nested empty `and()` and `or()`) yields no predicate and is dropped from its
   `and()`; everywhere else nothing changes.
   */
  function Relax(f: Filter, underSearchOr: bool): Filter {
    if underSearchOr && !ContainsSearchAtom(f) then And([])
    else match f
      case And(children) => And(seq(|children|, i requires 0 <= i < |children| => Relax(children[i], underSearchOr)))
      case Or(children) =>
        var under := underSearchOr || ContainsSearchAtom(f);
        Or(seq(|children|, i requires 0 <= i < |children| => Relax(children[i], under)))
      case _ => f
  }

  /** No part that `Relax` drops is false: `or()` with no children, or one made of such. */
  predicate NothingFalseDropped(f: Filter, underSearchOr: bool) {
    if underSearchOr && !ContainsSearchAtom(f) then ContainsScalarAtom(f) || AtomFreeTrue(f)
    else match f
      case And(children) => forall i :: 0 <= i < |children| ==> NothingFalseDropped(children[i], underSearchOr)
      case Or(children) =>
        forall i :: 0 <= i < |children| ==> NothingFalseDropped(children[i], underSearchOr || ContainsSearchAtom(f))
      case _ => true
  }

  /** The constant that an atom-free filter means. */
  predicate AtomFreeTrue(f: Filter) {
    match f
    case And(children) => forall i :: 0 <= i < |children| ==> AtomFreeTrue(children[i])
    case Or(children) => exists i :: 0 <= i < |children| && AtomFreeTrue(children[i])
    case _ => false
  }

  predicate NoEmptyConnective(f: Filter) {
    match f
    case And(children) => children != [] && forall i :: 0 <= i < |children| ==> NoEmptyConnective(children[i])
    case Or(children) => children != [] && forall i :: 0 <= i < |children| ==> NoEmptyConnective(children[i])
    case _ => true
  }

  // ---- collecting and combining ----

  lemma {:induction false} CollectSomeKeeps<T>(results: seq<Result<Option<T>, FilterError>>, keeps: T -> bool)
    requires CollectSome(results).Ok?
    ensures forall i :: 0 <= i < |results| ==> results[i].Ok?
    ensures (forall j :: 0 <= j < |CollectSome(results).value| ==> keeps(CollectSome(results).value[j]))
       <==> (forall i :: 0 <= i < |results| ==> results[i].value.Some? ==> keeps(results[i].value.value))
    ensures CollectSome(results).value == [] <==> forall i :: 0 <= i < |results| ==> results[i].value.None?
  {
    if results != [] {
      var rest := results[1..];
      CollectSomeKeeps(rest, keeps);
      var xs, ys := CollectSome(results).value, CollectSome(rest).value;
      assert forall i :: 1 <= i < |results| ==> results[i] == rest[i - 1];
      assert forall i :: 0 <= i < |rest| ==> rest[i] == results[i + 1];
      if results[0].value.Some? {
        assert xs == [results[0].value.value] + ys;
        assert xs[0] == results[0].value.value;
        assert forall j :: 0 <= j < |ys| ==> ys[j] == xs[j + 1];
        assert forall j :: 1 <= j < |xs| ==> xs[j] == ys[j - 1];
      } else {
        assert xs == ys;
      }
    }
  }

  lemma {:induction false} CollectAllKeeps<T>(results: seq<Result<Option<T>, FilterError>>)
    requires CollectAll(results).Ok?
    ensures |CollectAll(results).value| == |results|
    ensures forall i :: 0 <= i < |results| ==> results[i] == Ok(Some(CollectAll(results).value[i]))
  {
    if results != [] {
      CollectAllKeeps(results[1..]);
    }
  }

  lemma {:induction false} CombineAndHolds(predicates: seq<SP.SearchPredicate>, leaf: SP.SearchPredicate -> bool)
    ensures SearchHolds(CombineAnd(predicates), leaf) <==> forall i :: 0 <= i < |predicates| ==> SP.Eval(predicates[i], leaf)
  {
  }

  lemma {:induction false} CombineOrHolds(predicates: seq<SP.SearchPredicate>, leaf: SP.SearchPredicate -> bool)
    requires predicates != []
    ensures CombineOr(predicates).Some?
    ensures SP.Eval(CombineOr(predicates).value, leaf) <==> exists i :: 0 <= i < |predicates| && SP.Eval(predicates[i], leaf)
  {
    if |predicates| == 1 {
      assert CombineOr(predicates).value == predicates[0];
    }
  }

  lemma {:induction false} TextScopes(field: Field, query: SP.SearchQuery, leaf: SP.SearchPredicate -> bool)
    requires IsPayload(field)
    ensures SP.Eval(PayloadText(field, query), leaf) <==> InSomeScope(field, (s: SP.SearchField) => leaf(SP.Text(s, query)))
  {
    var scopes := PayloadScopes(field);
    var parts := seq(|scopes|, i requires 0 <= i < |scopes| => SP.Text(scopes[i], query));
    CombineOrHolds(parts, leaf);
    ScopesAre(field, (s: SP.SearchField) => leaf(SP.Text(s, query)));
    assert PayloadText(field, query) == CombineOr(parts).value;
    assert forall i :: 0 <= i < |parts| ==> SP.Eval(parts[i], leaf) == leaf(SP.Text(scopes[i], query));
  }

  lemma {:induction false} ValueScopes(field: Field, value: ByteString, leaf: SP.SearchPredicate -> bool)
    requires IsPayload(field)
    ensures SP.Eval(PayloadExactValue(field, value), leaf)
       <==> InSomeScope(field, (s: SP.SearchField) => leaf(SP.ExactValue(s, value)))
  {
    var scopes := PayloadScopes(field);
    var parts := seq(|scopes|, i requires 0 <= i < |scopes| => SP.ExactValue(scopes[i], value));
    CombineOrHolds(parts, leaf);
    ScopesAre(field, (s: SP.SearchField) => leaf(SP.ExactValue(s, value)));
    assert PayloadExactValue(field, value) == CombineOr(parts).value;
    assert forall i :: 0 <= i < |parts| ==> SP.Eval(parts[i], leaf) == leaf(SP.ExactValue(scopes[i], value));
  }

  lemma {:induction false} KeyPaths(field: Field, suffix: ByteString, leaf: SP.SearchPredicate -> bool)
    requires IsPayload(field)
    ensures SP.Eval(PayloadPath(field, suffix), leaf) <==> AtSomePath(field, suffix, (p: ByteString) => leaf(SP.JsonKey(p)))
  {
    var prefixes := PayloadPrefixes(field);
    PathsAre(field, suffix, (p: ByteString) => leaf(SP.JsonKey(p)));
    if prefixes != [] {
      var parts := seq(|prefixes|, i requires 0 <= i < |prefixes| => SP.JsonKey(JoinPath(prefixes[i], suffix)));
      CombineOrHolds(parts, leaf);
      assert forall i :: 0 <= i < |parts| ==> SP.Eval(parts[i], leaf) == leaf(SP.JsonKey(JoinPath(prefixes[i], suffix)));
    }
  }

  lemma {:induction false} TextPaths(field: Field, path: ByteString, query: SP.SearchQuery, leaf: SP.SearchPredicate -> bool)
    requires IsPayload(field)
    ensures SP.Eval(PayloadExactPathText(field, path, query), leaf)
       <==> AtSomePath(field, path, (p: ByteString) => leaf(SP.Text(SP.ExactPath(p), query)))
  {
    var prefixes := PayloadPrefixes(field);
    PathsAre(field, path, (p: ByteString) => leaf(SP.Text(SP.ExactPath(p), query)));
    if prefixes != [] {
      var parts := seq(|prefixes|, i requires 0 <= i < |prefixes| => SP.Text(SP.ExactPath(JoinPath(prefixes[i], path)), query));
      CombineOrHolds(parts, leaf);
      assert forall i :: 0 <= i < |parts| ==>
        SP.Eval(parts[i], leaf) == leaf(SP.Text(SP.ExactPath(JoinPath(prefixes[i], path)), query));
    }
  }

  function ValueParts(field: Field, values: seq<Value>): seq<SP.SearchPredicate> {
    seq(|values|, i requires 0 <= i < |values| => PayloadExactValue(field, AsString(values[i])))
  }

  predicate ValueInScope(field: Field, value: Value, leaf: SP.SearchPredicate -> bool) {
    InSomeScope(field, (s: SP.SearchField) => leaf(SP.ExactValue(s, AsString(value))))
  }

  lemma {:induction false} ValuePart(field: Field, values: seq<Value>, i: nat, leaf: SP.SearchPredicate -> bool)
    requires IsPayload(field) && i < |values|
    ensures SP.Eval(ValueParts(field, values)[i], leaf) <==> ValueInScope(field, values[i], leaf)
  {
    ValueScopes(field, AsString(values[i]), leaf);
    hide PayloadExactValue, InSomeScope, AsString;
  }

  lemma {:induction false} InHolds(field: Field, values: seq<Value>, leaf: SP.SearchPredicate -> bool)
    requires IsPayload(field) && values != []
    ensures AtomPredicate(In(field, values)) == Ok(CombineOr(ValueParts(field, values)))
    ensures SearchAtomHolds(In(field, values), leaf) <==> exists i :: 0 <= i < |values| && ValueInScope(field, values[i], leaf)
  {
    hide PayloadExactValue, InSomeScope, AsString, CombineOr;
    if SearchAtomHolds(In(field, values), leaf) {
      var v :| v in values && ValueInScope(field, v, leaf);
      var i :| 0 <= i < |values| && values[i] == v;
    }
  }

  lemma {:induction false} InValues(field: Field, values: seq<Value>, leaf: SP.SearchPredicate -> bool)
    requires IsPayload(field) && values != []
    ensures AtomPredicate(In(field, values)).value.Some?
    ensures SP.Eval(AtomPredicate(In(field, values)).value.value, leaf) <==> SearchAtomHolds(In(field, values), leaf)
  {
    var parts := ValueParts(field, values);
    CombineOrHolds(parts, leaf);
    InHolds(field, values, leaf);
    hide ValueInScope, AtomPredicate, SearchAtomHolds, CombineOr, PayloadExactValue, AsString, SP.Eval;
    forall i | 0 <= i < |values|
      ensures SP.Eval(parts[i], leaf) <==> ValueInScope(field, values[i], leaf)
    {
      ValuePart(field, values, i, leaf);
    }
  }

  /** A search atom's predicate says what the atom means. */
  lemma {:induction false} AtomAgrees(f: Filter, leaf: SP.SearchPredicate -> bool)
    requires IsSearchAtom(f) && AtomPredicate(f).Ok?
    ensures AtomPredicate(f).value.Some?
    ensures SP.Eval(AtomPredicate(f).value.value, leaf) <==> SearchAtomHolds(f, leaf)
  {
    hide PayloadText, PayloadExactValue, PayloadExactPathText, PayloadPath, InSomeScope, AtSomePath;
    match f
    case Search(Some(field), query) =>
      if IsPayload(field) {
        TextScopes(field, SP.ParseQuery(query), leaf);
      }
    case JsonKey(Some(field), pattern) => KeyPaths(field, pattern, leaf);
    case JsonKeySearch(Some(field), path, query) => TextPaths(field, path, SP.ParseQuery(query), leaf);
    case Compare(op, field, value) => ValueScopes(field, AsString(value), leaf);
    case Has(field, value) => KeyPaths(field, AsString(value), leaf);
    case In(field, values) => InValues(field, values, leaf);
    case Contains(field, value, negated) => TextScopes(field, SP.ParseQuery(AsString(value)), leaf);
    case _ =>
  }

  lemma {:induction false} OrLoosens(a: seq<Filter>, b: seq<Filter>, scalar: Filter -> bool, leaf: SP.SearchPredicate -> bool)
    requires |a| == |b|
    requires forall i :: 0 <= i < |a| ==> Holds(a[i], scalar, leaf) ==> Holds(b[i], scalar, leaf)
    requires Holds(Or(a), scalar, leaf)
    ensures Holds(Or(b), scalar, leaf)
  {
    var i :| 0 <= i < |a| && Holds(Or(a).children[i], scalar, leaf);
    assert Holds(Or(b).children[i], scalar, leaf);
  }

  lemma {:induction false} OrAgrees(a: seq<Filter>, b: seq<Filter>, scalar: Filter -> bool, leaf: SP.SearchPredicate -> bool)
    requires |a| == |b|
    requires forall i :: 0 <= i < |a| ==> Holds(a[i], scalar, leaf) == Holds(b[i], scalar, leaf)
    ensures Holds(Or(a), scalar, leaf) == Holds(Or(b), scalar, leaf)
  {
    if Holds(Or(a), scalar, leaf) {
      OrLoosens(a, b, scalar, leaf);
    }
    if Holds(Or(b), scalar, leaf) {
      OrLoosens(b, a, scalar, leaf);
    }
  }

  lemma {:induction false} AndAgrees(a: seq<Filter>, b: seq<Filter>, scalar: Filter -> bool, leaf: SP.SearchPredicate -> bool)
    requires |a| == |b|
    requires forall i :: 0 <= i < |a| ==> Holds(a[i], scalar, leaf) == Holds(b[i], scalar, leaf)
    ensures Holds(And(a), scalar, leaf) == Holds(And(b), scalar, leaf)
  {
    assert Holds(And(a), scalar, leaf) <==> forall i :: 0 <= i < |a| ==> Holds(a[i], scalar, leaf);
    assert Holds(And(b), scalar, leaf) <==> forall i :: 0 <= i < |b| ==> Holds(b[i], scalar, leaf);
  }

  lemma {:induction false} RelaxedAnd(f: Filter, under: bool, scalar: Filter -> bool, leaf: SP.SearchPredicate -> bool)
    requires f.And? && (under ==> ContainsSearchAtom(f))
    ensures Holds(Relax(f, under), scalar, leaf)
       <==> forall i :: 0 <= i < |f.children| ==> Holds(Relax(f.children[i], under), scalar, leaf)
  {
    var relaxed := Relax(f, under).children;
    assert forall i :: 0 <= i < |relaxed| ==> relaxed[i] == Relax(f.children[i], under);
    assert Relax(f, under) == And(relaxed);
    assert Holds(And(relaxed), scalar, leaf) <==> forall i :: 0 <= i < |relaxed| ==> Holds(relaxed[i], scalar, leaf);
  }

  // ---- the main results ----

  /** Below a search `or()`, with no scalar atom around: the predicate alone says it all. */
  lemma {:induction false} SearchOnly(f: Filter, scalar: Filter -> bool, leaf: SP.SearchPredicate -> bool)
    requires PredicateFor(f).Ok? && !ContainsScalarAtom(f)
    ensures PredicateFor(f).value.Some? <==> ContainsSearchAtom(f)
    ensures SearchHolds(PredicateFor(f).value, leaf) <==> Holds(Relax(f, true), scalar, leaf)
  {
    hide AtomPredicate, SearchAtomHolds, CombineAnd, CombineOr, SearchHolds;
    match f
    case And(children) =>
      var results := seq(|children|, i requires 0 <= i < |children| => PredicateFor(children[i]));
      var predicates := CollectSome(results).value;
      CollectSomeKeeps(results, (p: SP.SearchPredicate) => SP.Eval(p, leaf));
      CombineAndHolds(predicates, leaf);
      forall i | 0 <= i < |children|
        ensures results[i].value.Some? <==> ContainsSearchAtom(children[i])
        ensures SearchHolds(results[i].value, leaf) <==> Holds(Relax(children[i], true), scalar, leaf)
      {
        assert results[i].Ok?;
        SearchOnly(children[i], scalar, leaf);
      }
      CombinedIsSome(predicates);
      SearchHoldsAll(results, leaf);
      if ContainsSearchAtom(f) {
        RelaxedAnd(f, true, scalar, leaf);
      } else {
        NothingToSearch(leaf);
      }
    case Or(children) =>
      if ContainsSearchAtom(f) {
        var results := seq(|children|, i requires 0 <= i < |children| => PredicateFor(children[i]));
        var predicates := CollectAll(results).value;
        CollectAllKeeps(results);
        assert predicates != [];
        CombineOrHolds(predicates, leaf);
        CombinedIsSome(predicates);
        forall i | 0 <= i < |children|
          ensures SP.Eval(predicates[i], leaf) <==> Holds(Relax(children[i], true), scalar, leaf)
        {
          assert results[i] == Ok(Some(predicates[i]));
          SearchOnly(children[i], scalar, leaf);
          PresentSearch(predicates[i], leaf);
        }
        PresentSearch(CombineOr(predicates).value, leaf);
        RelaxedBranch(f, predicates, scalar, leaf);
      } else {
        NothingToSearch(leaf);
      }
    case _ =>
      AtomAgrees(f, leaf);
      PresentSearch(AtomPredicate(f).value.value, leaf);
  }

  lemma {:induction false} RelaxedBranch(f: Filter, predicates: seq<SP.SearchPredicate>, scalar: Filter -> bool, leaf: SP.SearchPredicate -> bool)
    requires f.Or? && ContainsSearchAtom(f) && |predicates| == |f.children|
    requires forall i :: 0 <= i < |predicates| ==>
      SP.Eval(predicates[i], leaf) == Holds(Relax(f.children[i], true), scalar, leaf)
    ensures (exists i :: 0 <= i < |predicates| && SP.Eval(predicates[i], leaf)) <==> Holds(Relax(f, true), scalar, leaf)
  {
    var relaxed := Relax(f, true).children;
    assert forall i :: 0 <= i < |relaxed| ==> Holds(relaxed[i], scalar, leaf) == SP.Eval(predicates[i], leaf);
    assert forall i :: 0 <= i < |predicates| ==> SP.Eval(predicates[i], leaf) == Holds(relaxed[i], scalar, leaf);
  }

  lemma {:induction false} NothingToSearch(leaf: SP.SearchPredicate -> bool)
    ensures SearchHolds(None, leaf)
  {
  }

  lemma {:induction false} PresentSearch(p: SP.SearchPredicate, leaf: SP.SearchPredicate -> bool)
    ensures SearchHolds(Some(p), leaf) <==> SP.Eval(p, leaf)
  {
  }

  lemma {:induction false} CombinedIsSome(predicates: seq<SP.SearchPredicate>)
    ensures CombineAnd(predicates).Some? <==> predicates != []
    ensures CombineOr(predicates).Some? <==> predicates != []
  {
  }

  lemma {:induction false} SearchHoldsAll(results: seq<Split>, leaf: SP.SearchPredicate -> bool)
    requires forall i :: 0 <= i < |results| ==> results[i].Ok?
    ensures (forall i :: 0 <= i < |results| ==> results[i].value.Some? ==> SP.Eval(results[i].value.value, leaf))
       <==> (forall i :: 0 <= i < |results| ==> SearchHolds(results[i].value, leaf))
  {
    forall i | 0 <= i < |results|
      ensures (results[i].value.Some? ==> SP.Eval(results[i].value.value, leaf)) <==> SearchHolds(results[i].value, leaf)
    {
    }
  }

  /** Away from search `or()`s, a part without search atoms keeps its meaning. */
  lemma {:induction false} ScalarOnlyKept(f: Filter, scalar: Filter -> bool, leaf: SP.SearchPredicate -> bool)
    requires !ContainsSearchAtom(f)
    ensures Holds(Relax(f, false), scalar, leaf) <==> Holds(f, scalar, leaf)
  {
    match f
    case And(children) =>
      forall i | 0 <= i < |children|
        ensures Holds(Relax(children[i], false), scalar, leaf) <==> Holds(children[i], scalar, leaf)
      {
        ScalarOnlyKept(children[i], scalar, leaf);
      }
      AndAgrees(Relax(f, false).children, children, scalar, leaf);
    case Or(children) =>
      forall i | 0 <= i < |children|
        ensures Holds(Relax(children[i], false), scalar, leaf) <==> Holds(children[i], scalar, leaf)
      {
        ScalarOnlyKept(children[i], scalar, leaf);
      }
      OrAgrees(Relax(f, false).children, children, scalar, leaf);
    case _ =>
  }

  predicate SplitHolds(f: Filter, scalar: Filter -> bool, leaf: SP.SearchPredicate -> bool)
    requires PredicateFor(f).Ok? && ScalarPrefilter(f).Ok?
  {
    PrefilterHolds(ScalarPrefilter(f).value, scalar, leaf) && SearchHolds(PredicateFor(f).value, leaf)
  }

  lemma {:induction false} PrefilterHoldsAll(results: seq<Result<Option<Filter>, FilterError>>, scalar: Filter -> bool, leaf: SP.SearchPredicate -> bool)
    requires forall i :: 0 <= i < |results| ==> results[i].Ok?
    ensures (forall i :: 0 <= i < |results| ==> results[i].value.Some? ==> Holds(results[i].value.value, scalar, leaf))
       <==> (forall i :: 0 <= i < |results| ==> PrefilterHolds(results[i].value, scalar, leaf))
  {
    forall i | 0 <= i < |results|
      ensures (results[i].value.Some? ==> Holds(results[i].value.value, scalar, leaf))
         <==> PrefilterHolds(results[i].value, scalar, leaf)
    {
    }
  }

  lemma {:induction false} AndPrefilterHolds(kept: seq<Filter>, scalar: Filter -> bool, leaf: SP.SearchPredicate -> bool)
    ensures PrefilterHolds(if |kept| == 0 then None else if |kept| == 1 then Some(kept[0]) else Some(And(kept)), scalar, leaf)
       <==> forall i :: 0 <= i < |kept| ==> Holds(kept[i], scalar, leaf)
  {
  }

  lemma {:induction false} AndMeansRelaxed(children: seq<Filter>, scalar: Filter -> bool, leaf: SP.SearchPredicate -> bool)
    requires PredicateFor(And(children)).Ok? && ScalarPrefilter(And(children)).Ok?
    requires forall i :: 0 <= i < |children| && PredicateFor(children[i]).Ok? && ScalarPrefilter(children[i]).Ok? ==>
      (SplitHolds(children[i], scalar, leaf) <==> Holds(Relax(children[i], false), scalar, leaf))
    ensures SplitHolds(And(children), scalar, leaf) <==> Holds(Relax(And(children), false), scalar, leaf)
  {
    hide AtomPredicate, SearchAtomHolds, CombineAnd, CombineOr, PrefilterHolds, SearchHolds;
    var f := And(children);
    var results := seq(|children|, i requires 0 <= i < |children| => PredicateFor(children[i]));
    var prefilters := seq(|children|, i requires 0 <= i < |children| => ScalarPrefilter(children[i]));
    CollectSomeKeeps(results, (p: SP.SearchPredicate) => SP.Eval(p, leaf));
    CollectSomeKeeps(prefilters, (p: Filter) => Holds(p, scalar, leaf));
    CombineAndHolds(CollectSome(results).value, leaf);
    AndPrefilterHolds(CollectSome(prefilters).value, scalar, leaf);
    SearchHoldsAll(results, leaf);
    PrefilterHoldsAll(prefilters, scalar, leaf);
    forall i | 0 <= i < |children|
      ensures PrefilterHolds(prefilters[i].value, scalar, leaf) && SearchHolds(results[i].value, leaf)
         <==> Holds(Relax(children[i], false), scalar, leaf)
    {
      assert results[i].Ok? && prefilters[i].Ok?;
    }
    RelaxedAnd(f, false, scalar, leaf);
  }

  /** Whenever the split succeeds, its two halves together say exactly what `Relax` keeps. */
  lemma {:induction false} SplitMeansRelaxed(f: Filter, scalar: Filter -> bool, leaf: SP.SearchPredicate -> bool)
    requires PredicateFor(f).Ok? && ScalarPrefilter(f).Ok?
    ensures SplitHolds(f, scalar, leaf) <==> Holds(Relax(f, false), scalar, leaf)
  {
    hide AtomPredicate, SearchAtomHolds, CombineAnd, CombineOr, PrefilterHolds, SearchHolds;
    match f
    case And(children) =>
      forall i | 0 <= i < |children| && PredicateFor(children[i]).Ok? && ScalarPrefilter(children[i]).Ok?
        ensures SplitHolds(children[i], scalar, leaf) <==> Holds(Relax(children[i], false), scalar, leaf)
      {
        SplitMeansRelaxed(children[i], scalar, leaf);
      }
      AndMeansRelaxed(children, scalar, leaf);
    case Or(children) =>
      if ContainsSearchAtom(f) {
        SearchOnly(f, scalar, leaf);
        assert Relax(f, true) == Relax(f, false);
        assert PrefilterHolds(None, scalar, leaf) by { NoPrefilter(scalar, leaf); }
      } else {
        ScalarOnlyKept(f, scalar, leaf);
        NothingToSearch(leaf);
        PresentPrefilter(f, scalar, leaf);
      }
    case _ =>
      if IsSearchAtom(f) {
        AtomAgrees(f, leaf);
        PresentSearch(AtomPredicate(f).value.value, leaf);
        NoPrefilter(scalar, leaf);
      } else {
        ScalarAtomHasNoPredicate(f);
        NothingToSearch(leaf);
        PresentPrefilter(f, scalar, leaf);
      }
  }

  lemma {:induction false} ScalarAtomHasNoPredicate(f: Filter)
    requires !IsSearchAtom(f)
    ensures AtomPredicate(f) == Ok(None)
  {
  }

  lemma {:induction false} NoPrefilter(scalar: Filter -> bool, leaf: SP.SearchPredicate -> bool)
    ensures PrefilterHolds(None, scalar, leaf)
  {
  }

  lemma {:induction false} PresentPrefilter(f: Filter, scalar: Filter -> bool, leaf: SP.SearchPredicate -> bool)
    ensures PrefilterHolds(Some(f), scalar, leaf) <==> Holds(f, scalar, leaf)
  {
  }

  /** Relaxing only ever lets more runs through. */
  lemma {:induction false} RelaxLoosens(f: Filter, under: bool, scalar: Filter -> bool, leaf: SP.SearchPredicate -> bool)
    ensures Holds(f, scalar, leaf) ==> Holds(Relax(f, under), scalar, leaf)
  {
    match f
    case And(children) =>
      forall i | 0 <= i < |children|
        ensures Holds(children[i], scalar, leaf) ==> Holds(Relax(children[i], under), scalar, leaf)
      {
        RelaxLoosens(children[i], under, scalar, leaf);
      }
    case Or(children) =>
      var deeper := under || ContainsSearchAtom(f);
      forall i | 0 <= i < |children|
        ensures Holds(children[i], scalar, leaf) ==> Holds(Relax(children[i], deeper), scalar, leaf)
      {
        RelaxLoosens(children[i], deeper, scalar, leaf);
      }
      if Holds(f, scalar, leaf) && !(under && !ContainsSearchAtom(f)) {
        OrLoosens(children, Relax(f, under).children, scalar, leaf);
      }
    case _ =>
  }

  /** The split never hides a run the filter accepts. */
  lemma {:induction false} SplitLosesNothing(f: Filter, scalar: Filter -> bool, leaf: SP.SearchPredicate -> bool)
    requires PredicateFor(f).Ok? && ScalarPrefilter(f).Ok?
    requires Holds(f, scalar, leaf)
    ensures SplitHolds(f, scalar, leaf)
  {
    SplitMeansRelaxed(f, scalar, leaf);
    RelaxLoosens(f, false, scalar, leaf);
  }

  lemma {:induction false} AtomFreeIsConstant(f: Filter, scalar: Filter -> bool, leaf: SP.SearchPredicate -> bool)
    requires !ContainsSearchAtom(f) && !ContainsScalarAtom(f)
    ensures Holds(f, scalar, leaf) == AtomFreeTrue(f)
  {
    match f
    case And(children) =>
      forall i | 0 <= i < |children|
        ensures Holds(children[i], scalar, leaf) == AtomFreeTrue(children[i])
      {
        AtomFreeIsConstant(children[i], scalar, leaf);
      }
    case Or(children) =>
      forall i | 0 <= i < |children|
        ensures Holds(children[i], scalar, leaf) == AtomFreeTrue(children[i])
      {
        AtomFreeIsConstant(children[i], scalar, leaf);
      }
    case _ =>
  }

  lemma {:induction false} RelaxExact(f: Filter, under: bool, scalar: Filter -> bool, leaf: SP.SearchPredicate -> bool)
    requires NothingFalseDropped(f, under)
    requires PredicateFor(f).Ok?
    requires under ==> !ContainsScalarAtom(f)
    ensures Holds(Relax(f, under), scalar, leaf) <==> Holds(f, scalar, leaf)
  {
    hide AtomPredicate, SearchAtomHolds, CombineAnd, CombineOr;
    if under && !ContainsSearchAtom(f) {
      AtomFreeIsConstant(f, scalar, leaf);
    } else {
      match f
      case And(children) =>
        var results := seq(|children|, i requires 0 <= i < |children| => PredicateFor(children[i]));
        CollectSomeKeeps(results, (p: SP.SearchPredicate) => true);
        forall i | 0 <= i < |children|
          ensures Holds(Relax(children[i], under), scalar, leaf) <==> Holds(children[i], scalar, leaf)
        {
          assert results[i].Ok?;
          RelaxExact(children[i], under, scalar, leaf);
        }
        RelaxedAnd(f, under, scalar, leaf);
      case Or(children) =>
        if ContainsSearchAtom(f) {
          var results := seq(|children|, i requires 0 <= i < |children| => PredicateFor(children[i]));
          CollectAllKeeps(results);
          forall i | 0 <= i < |children|
            ensures Holds(Relax(children[i], true), scalar, leaf) <==> Holds(children[i], scalar, leaf)
          {
            assert results[i].Ok?;
            RelaxExact(children[i], true, scalar, leaf);
          }
          OrAgrees(Relax(f, under).children, children, scalar, leaf);
        } else {
          ScalarOnlyKept(f, scalar, leaf);
        }
      case _ =>
    }
  }

  /** With nothing false dropped, the split is the filter. */
  lemma {:induction false} SplitPreservesMeaning(f: Filter, scalar: Filter -> bool, leaf: SP.SearchPredicate -> bool)
    requires PredicateFor(f).Ok? && ScalarPrefilter(f).Ok?
    requires NothingFalseDropped(f, false)
    ensures SplitHolds(f, scalar, leaf) <==> Holds(f, scalar, leaf)
  {
    SplitMeansRelaxed(f, scalar, leaf);
    RelaxExact(f, false, scalar, leaf);
  }

  lemma {:induction false} NonEmptyHasAtom(f: Filter)
    requires NoEmptyConnective(f)
    ensures ContainsSearchAtom(f) || ContainsScalarAtom(f)
  {
    match f
    case And(children) => NonEmptyHasAtom(children[0]);
    case Or(children) => NonEmptyHasAtom(children[0]);
    case _ =>
  }

  lemma {:induction false} NonEmptyDropsNothing(f: Filter, under: bool)
    requires NoEmptyConnective(f)
    ensures NothingFalseDropped(f, under)
  {
    NonEmptyHasAtom(f);
    match f
    case And(children) =>
      forall i | 0 <= i < |children|
        ensures NothingFalseDropped(children[i], under)
      {
        NonEmptyDropsNothing(children[i], under);
      }
    case Or(children) =>
      var deeper := under || ContainsSearchAtom(f);
      forall i | 0 <= i < |children|
        ensures NothingFalseDropped(children[i], deeper)
      {
        NonEmptyDropsNothing(children[i], deeper);
      }
    case _ =>
  }

  /** The promise for filters without empty `and()` or `or()`. */
  lemma {:induction false} SplitPreservesNonEmpty(f: Filter, scalar: Filter -> bool, leaf: SP.SearchPredicate -> bool)
    requires NoEmptyConnective(f)
    requires PredicateFor(f).Ok? && ScalarPrefilter(f).Ok?
    ensures SplitHolds(f, scalar, leaf) <==> Holds(f, scalar, leaf)
  {
    NonEmptyDropsNothing(f, false);
    SplitPreservesMeaning(f, scalar, leaf);
  }

  // ---- where the split and the filter part ways ----

  function SlippingFilter(a: ByteString, b: ByteString): Filter {
    Or([Search(None, a), And([Search(None, b), Or([])])])
  }

  lemma {:induction false} SlippingAtoms(a: ByteString, b: ByteString)
    ensures ContainsSearchAtom(SlippingFilter(a, b)) && !ContainsScalarAtom(SlippingFilter(a, b))
  {
    var f := SlippingFilter(a, b);
    var inner := f.children[1];
    assert f.children[0] == Search(None, a) && ContainsSearchAtom(f.children[0]);
    assert inner.children[0] == Search(None, b) && inner.children[1] == Or([]);
    assert !ContainsScalarAtom(inner.children[0]) && !ContainsScalarAtom(inner.children[1]);
    assert !ContainsScalarAtom(f.children[0]) && !ContainsScalarAtom(inner);
  }

  lemma {:induction false} InnerSplit(b: ByteString)
    ensures PredicateFor(And([Search(None, b), Or([])])) == Ok(Some(SP.Text(SP.AllPaths, SP.ParseQuery(b))))
  {
    var inner := And([Search(None, b), Or([])]);
    var pb := SP.Text(SP.AllPaths, SP.ParseQuery(b));
    assert !ContainsSearchAtom(Or([]));
    var parts: seq<Split> := [Ok(Some(pb)), Ok(None)];
    assert seq(2, i requires 0 <= i < 2 => PredicateFor(inner.children[i])) == parts;
    assert parts == [parts[0]] + [parts[1]];
    CollectSomeAppend([parts[0]], [parts[1]]);
    CollectOne(parts[0]);
    CollectOne(parts[1]);
    assert [pb] + [] == [pb];
  }

  lemma {:induction false} SlippingSplit(a: ByteString, b: ByteString)
    ensures ScalarPrefilter(SlippingFilter(a, b)) == Ok(None)
    ensures PredicateFor(SlippingFilter(a, b))
         == Ok(Some(SP.Or([SP.Text(SP.AllPaths, SP.ParseQuery(a)), SP.Text(SP.AllPaths, SP.ParseQuery(b))])))
  {
    var f := SlippingFilter(a, b);
    var pa, pb := SP.Text(SP.AllPaths, SP.ParseQuery(a)), SP.Text(SP.AllPaths, SP.ParseQuery(b));
    SlippingAtoms(a, b);
    InnerSplit(b);
    var parts: seq<Split> := [Ok(Some(pa)), Ok(Some(pb))];
    assert PredicateFor(f.children[0]) == parts[0];
    hide PredicateFor;
    assert seq(2, i requires 0 <= i < 2 => PredicateFor(f.children[i])) == parts;
    assert CollectAll(parts[1..]) == Ok([pb]) by { assert parts[1..] == [parts[1]]; assert [pb] + [] == [pb]; }
    assert CollectAll(parts) == Ok([pa, pb]) by { assert [pa] + [pb] == [pa, pb]; }
    OrPredicate(f);
  }

  lemma {:induction false} OrPredicate(f: Filter)
    requires f.Or? && ContainsSearchAtom(f) && !ContainsScalarAtom(f)
    ensures PredicateFor(f)
         == match CollectAll(seq(|f.children|, i requires 0 <= i < |f.children| => PredicateFor(f.children[i])))
            case Err(e) => Err(e)
            case Ok(predicates) => Ok(CombineOr(predicates))
  {
  }

  /** `or(search(a), and(search(b), or()))` is split as `or(search(a), search(b))`: a run matching only b slips through. */
  lemma {:induction false} EmptyOrSlipsThrough(a: ByteString, b: ByteString)
    requires SP.ParseQuery(a) != SP.ParseQuery(b)
    ensures var f := SlippingFilter(a, b);
            var leaf := (p: SP.SearchPredicate) => p == SP.Text(SP.AllPaths, SP.ParseQuery(b));
            var scalar := (atom: Filter) => false;
            && PredicateFor(f).Ok? && ScalarPrefilter(f).Ok?
            && SplitHolds(f, scalar, leaf) && !Holds(f, scalar, leaf)
  {
    var leaf := (p: SP.SearchPredicate) => p == SP.Text(SP.AllPaths, SP.ParseQuery(b));
    var scalar := (atom: Filter) => false;
    SlippingSplit(a, b);
    SlippingAccepts(a, b, leaf);
    SlippingRejects(a, b, scalar, leaf);
    hide PredicateFor, ScalarPrefilter, Holds, SP.Eval, SP.ParseQuery;
  }

  lemma {:induction false} SlippingAccepts(a: ByteString, b: ByteString, leaf: SP.SearchPredicate -> bool)
    requires leaf(SP.Text(SP.AllPaths, SP.ParseQuery(b)))
    ensures SP.Eval(SP.Or([SP.Text(SP.AllPaths, SP.ParseQuery(a)), SP.Text(SP.AllPaths, SP.ParseQuery(b))]), leaf)
  {
    hide SP.ParseQuery;
    var split := SP.Or([SP.Text(SP.AllPaths, SP.ParseQuery(a)), SP.Text(SP.AllPaths, SP.ParseQuery(b))]);
    assert SP.Eval(split.children[1], leaf);
  }

  lemma {:induction false} SlippingRejects(a: ByteString, b: ByteString, scalar: Filter -> bool, leaf: SP.SearchPredicate -> bool)
    requires !leaf(SP.Text(SP.AllPaths, SP.ParseQuery(a)))
    ensures !Holds(SlippingFilter(a, b), scalar, leaf)
  {
    hide SP.ParseQuery;
    var f := SlippingFilter(a, b);
    var inner := f.children[1];
    assert inner.children[1] == Or([]) && !Holds(inner.children[1], scalar, leaf);
    assert !Holds(inner, scalar, leaf) && !Holds(f.children[0], scalar, leaf);
  }
}
