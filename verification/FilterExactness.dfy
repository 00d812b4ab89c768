/**
 When the split of a filter means the filter, for every run at once
 (src/query/filter/phase6.rs): the exact condition for filters that name no atom twice.
 */
module FilterExactness {
  import opened Wrappers
  import SP = SearchPredicates
  import opened FilterSplit

  // ---- filters over sets of true atoms ----

  function Atoms(f: Filter): set<Filter> {
    match f
    case And(children) => set i, a | 0 <= i < |children| && a in Atoms(children[i]) :: a
    case Or(children) => set i, a | 0 <= i < |children| && a in Atoms(children[i]) :: a
    case _ => {f}
  }

  /** What the filter says when exactly these atoms are true. */
  predicate HoldsAt(f: Filter, atoms: set<Filter>) {
    match f
    case And(children) => forall i :: 0 <= i < |children| ==> HoldsAt(children[i], atoms)
    case Or(children) => exists i :: 0 <= i < |children| && HoldsAt(children[i], atoms)
    case _ => f in atoms
  }

  predicate Separate(children: seq<Filter>) {
    forall i, j :: 0 <= i < |children| && 0 <= j < |children| && i != j ==> Atoms(children[i]) !! Atoms(children[j])
  }

  /** No atom stands in two places. */
  predicate ReadOnce(f: Filter) {
    match f
    case And(children) => Separate(children) && forall i :: 0 <= i < |children| ==> ReadOnce(children[i])
    case Or(children) => Separate(children) && forall i :: 0 <= i < |children| ==> ReadOnce(children[i])
    case _ => true
  }

  /** What is left of the filter holds when every atom does. */
  predicate CanHold(f: Filter) {
    HoldsAt(Relax(f, false), Atoms(f))
  }

  predicate SubFilter(f: Filter, i: int) {
    (f.And? || f.Or?) && 0 <= i < |f.children|
  }

  lemma {:induction false} AtomsBelow(f: Filter, i: nat)
    requires SubFilter(f, i)
    ensures Atoms(f.children[i]) <= Atoms(f)
  {
    hide ReadOnce, HoldsAt;
    forall a | a in Atoms(f.children[i])
      ensures a in Atoms(f)
    {
      assert f.And? ==> a in Atoms(f);
    }
  }

  lemma {:induction false} AtomFrom(f: Filter, a: Filter) returns (i: nat)
    requires (f.And? || f.Or?) && a in Atoms(f)
    ensures SubFilter(f, i) && a in Atoms(f.children[i])
  {
    i :| SubFilter(f, i) && a in Atoms(f.children[i]);
  }

  lemma {:induction false} SameAtoms(f: Filter, s: set<Filter>, t: set<Filter>)
    requires forall a :: a in Atoms(f) ==> (a in s <==> a in t)
    ensures HoldsAt(f, s) <==> HoldsAt(f, t)
  {
    if f.And? || f.Or? {
      forall i | SubFilter(f, i)
        ensures HoldsAt(f.children[i], s) <==> HoldsAt(f.children[i], t)
      {
        AtomsBelow(f, i);
        SameAtoms(f.children[i], s, t);
      }
      hide Atoms;
    }
  }

  lemma {:induction false} MoreAtoms(f: Filter, s: set<Filter>, t: set<Filter>)
    requires s <= t && HoldsAt(f, s)
    ensures HoldsAt(f, t)
  {
    if f.And? || f.Or? {
      forall i | SubFilter(f, i) && HoldsAt(f.children[i], s)
        ensures HoldsAt(f.children[i], t)
      {
        MoreAtoms(f.children[i], s, t);
      }
    }
  }

  lemma {:induction false} RelaxedChild(f: Filter, under: bool, i: nat)
    requires SubFilter(f, i) && (under ==> ContainsSearchAtom(f))
    ensures var deeper := under || (f.Or? && ContainsSearchAtom(f));
      && SubFilter(Relax(f, under), i) && |Relax(f, under).children| == |f.children|
      && Relax(f, under).And? == f.And?
      && Relax(f, under).children[i] == Relax(f.children[i], deeper)
  {
  }

  lemma {:induction false} RelaxedAtoms(f: Filter, under: bool)
    ensures Atoms(Relax(f, under)) <= Atoms(f)
  {
    hide ReadOnce, HoldsAt;
    if (f.And? || f.Or?) && (under ==> ContainsSearchAtom(f)) {
      forall a | a in Atoms(Relax(f, under))
        ensures a in Atoms(f)
      {
        if f.children != [] {
          RelaxedChild(f, under, 0);
        }
        var i := AtomFrom(Relax(f, under), a);
        RelaxedChild(f, under, i);
        RelaxedAtoms(f.children[i], under || (f.Or? && ContainsSearchAtom(f)));
        AtomsBelow(f, i);
      }
    }
  }

  // ---- inside a search `or()` ----

  /** What may stand below a search `or()` whose split succeeds. */
  predicate Region(f: Filter) {
    PredicateFor(f).Ok? && !ContainsScalarAtom(f)
  }

  lemma {:induction false} RegionBelow(f: Filter, i: nat)
    requires Region(f) && SubFilter(f, i) && ContainsSearchAtom(f)
    ensures Region(f.children[i])
    ensures f.Or? ==> ContainsSearchAtom(f.children[i])
  {
    hide AtomPredicate, CombineAnd, CombineOr;
    var results := seq(|f.children|, i requires 0 <= i < |f.children| => PredicateFor(f.children[i]));
    if f.And? {
      CollectSomeKeeps(results, (p: SP.SearchPredicate) => true);
      assert results[i].Ok?;
    } else {
      CollectAllKeeps(results);
      assert results[i] == Ok(Some(CollectAll(results).value[i]));
      SearchOnly(f.children[i], (a: Filter) => true, (p: SP.SearchPredicate) => true);
    }
  }

  lemma {:induction false} SearchBelow(f: Filter) returns (i: nat)
    requires (f.And? || f.Or?) && ContainsSearchAtom(f)
    ensures SubFilter(f, i) && ContainsSearchAtom(f.children[i])
  {
    i :| SubFilter(f, i) && ContainsSearchAtom(f.children[i]);
  }

  /** With every atom true, what is left is true. */
  lemma {:induction false} AllTrue(f: Filter, atoms: set<Filter>)
    requires Region(f) && Atoms(f) <= atoms
    ensures HoldsAt(Relax(f, true), atoms)
  {
    hide Region, ReadOnce;
    if (f.And? || f.Or?) && ContainsSearchAtom(f) {
      var first := SearchBelow(f);
      forall i | SubFilter(f, i)
        ensures HoldsAt(Relax(f, true).children[i], atoms)
      {
        RegionBelow(f, i);
        AtomsBelow(f, i);
        RelaxedChild(f, true, i);
        AllTrue(f.children[i], atoms);
      }
      RelaxedChild(f, true, first);
      hide Relax, Atoms;
      assert HoldsAt(Relax(f, true).children[first], atoms);
    }
  }

  /** With none of its atoms true, a part that searches is false, and so is what is left of it. */
  lemma {:induction false} NoneTrue(f: Filter, atoms: set<Filter>)
    requires Region(f) && ContainsSearchAtom(f) && Atoms(f) !! atoms
    ensures !HoldsAt(f, atoms) && !HoldsAt(Relax(f, true), atoms)
  {
    hide Region, ReadOnce;
    if f.And? || f.Or? {
      var first := SearchBelow(f);
      forall i | SubFilter(f, i) && ContainsSearchAtom(f.children[i])
        ensures !HoldsAt(f.children[i], atoms) && !HoldsAt(Relax(f, true).children[i], atoms)
      {
        RegionBelow(f, i);
        AtomsBelow(f, i);
        RelaxedChild(f, true, i);
        NoneTrue(f.children[i], atoms);
      }
      RelaxedChild(f, true, first);
      forall i | SubFilter(f, i) && f.Or?
        ensures ContainsSearchAtom(f.children[i])
      {
        RegionBelow(f, i);
      }
      hide Relax, Atoms, ContainsSearchAtom;
      assert !HoldsAt(f.children[first], atoms);
    }
  }

  lemma {:induction false} ConstantAt(f: Filter, atoms: set<Filter>)
    requires !ContainsSearchAtom(f) && !ContainsScalarAtom(f)
    ensures HoldsAt(f, atoms) == AtomFreeTrue(f)
  {
    if f.And? || f.Or? {
      forall i | SubFilter(f, i)
        ensures HoldsAt(f.children[i], atoms) == AtomFreeTrue(f.children[i])
      {
        ConstantAt(f.children[i], atoms);
      }
    }
  }

  /** All atoms true except that, among the atoms of one child, only those of `inner` are. */
  function OnlyInside(f: Filter, child: Filter, inner: set<Filter>): set<Filter> {
    (Atoms(f) - Atoms(child)) + inner
  }

  lemma {:induction false} OnlyInsideAgrees(f: Filter, i: nat, inner: set<Filter>, j: nat)
    requires SubFilter(f, i) && SubFilter(f, j) && ReadOnce(f) && inner <= Atoms(f.children[i])
    ensures var atoms := OnlyInside(f, f.children[i], inner);
      if i == j then forall a :: a in Atoms(f.children[j]) ==> (a in atoms <==> a in inner)
      else Atoms(f.children[j]) <= atoms
  {
    AtomsBelow(f, j);
    hide Atoms, HoldsAt;
  }

  lemma {:induction false} DroppedChild(f: Filter, under: bool) returns (i: nat)
    requires (f.And? || f.Or?) && (under ==> ContainsSearchAtom(f)) && !NothingFalseDropped(f, under)
    ensures SubFilter(f, i) && !NothingFalseDropped(f.children[i], under || (f.Or? && ContainsSearchAtom(f)))
  {
    var deeper := under || (f.Or? && ContainsSearchAtom(f));
    i :| SubFilter(f, i) && !NothingFalseDropped(f.children[i], deeper);
  }

  /** Where something false is dropped below a search `or()`, some atoms tell what is left from the filter. */
  lemma {:induction false} Witness(f: Filter) returns (atoms: set<Filter>)
    requires Region(f) && ContainsSearchAtom(f) && !NothingFalseDropped(f, true) && ReadOnce(f)
    ensures atoms <= Atoms(f) && HoldsAt(Relax(f, true), atoms) && !HoldsAt(f, atoms)
  {
    hide Region, Relax;
    assert f.And? || f.Or?;
    var i := DroppedChild(f, true);
    var child := f.children[i];
    RegionBelow(f, i);
    AtomsBelow(f, i);
    assert ReadOnce(child);
    if !ContainsSearchAtom(child) {
      DroppedConstant(child, Atoms(f));
      AllTrue(f, Atoms(f));
      return Atoms(f);
    }
    var inner := Witness(child);
    if f.And? {
      atoms := OnlyInside(f, child, inner);
      WitnessInAnd(f, i, inner);
    } else {
      atoms := inner;
      WitnessInOr(f, i, inner);
    }
  }

  lemma {:induction false} DroppedConstant(f: Filter, atoms: set<Filter>)
    requires Region(f) && !ContainsSearchAtom(f) && !NothingFalseDropped(f, true)
    ensures !HoldsAt(f, atoms)
  {
    ConstantAt(f, atoms);
  }

  lemma {:induction false} WitnessInAnd(f: Filter, i: nat, inner: set<Filter>)
    requires Region(f) && ContainsSearchAtom(f) && ReadOnce(f) && f.And? && SubFilter(f, i)
    requires inner <= Atoms(f.children[i]) && HoldsAt(Relax(f.children[i], true), inner) && !HoldsAt(f.children[i], inner)
    ensures var atoms := OnlyInside(f, f.children[i], inner);
            atoms <= Atoms(f) && HoldsAt(Relax(f, true), atoms) && !HoldsAt(f, atoms)
  {
    hide Region, Relax, ReadOnce, ContainsSearchAtom, Atoms;
    var atoms := OnlyInside(f, f.children[i], inner);
    RelaxedChild(f, true, i);
    forall j | SubFilter(f, j)
      ensures HoldsAt(Relax(f, true).children[j], atoms)
    {
      OnlyInsideAgrees(f, i, inner, j);
      RelaxedChild(f, true, j);
      if j == i {
        RelaxedAtoms(f.children[i], true);
        SameAtoms(Relax(f.children[i], true), atoms, inner);
      } else {
        RegionBelow(f, j);
        AllTrue(f.children[j], atoms);
      }
    }
    OnlyInsideAgrees(f, i, inner, i);
    SameAtoms(f.children[i], atoms, inner);
    AtomsBelow(f, i);
  }

  lemma {:induction false} WitnessInOr(f: Filter, i: nat, inner: set<Filter>)
    requires Region(f) && ContainsSearchAtom(f) && ReadOnce(f) && f.Or? && SubFilter(f, i)
    requires inner <= Atoms(f.children[i]) && HoldsAt(Relax(f.children[i], true), inner) && !HoldsAt(f.children[i], inner)
    ensures HoldsAt(Relax(f, true), inner) && !HoldsAt(f, inner)
  {
    assert Separate(f.children);
    hide Region, Relax, ReadOnce, ContainsSearchAtom, Atoms;
    forall j | SubFilter(f, j)
      ensures !HoldsAt(f.children[j], inner)
    {
      if j != i {
        RegionBelow(f, j);
        assert Atoms(f.children[j]) !! inner;
        NoneTrue(f.children[j], inner);
      }
    }
    RelaxedChild(f, true, i);
    assert HoldsAt(Relax(f, true).children[i], inner);
  }

  // ---- the whole filter ----

  lemma {:induction false} ScalarDropsNothing(f: Filter)
    requires !ContainsSearchAtom(f)
    ensures NothingFalseDropped(f, false)
  {
    if f.And? || f.Or? {
      forall i | SubFilter(f, i)
        ensures NothingFalseDropped(f.children[i], false)
      {
        ScalarDropsNothing(f.children[i]);
      }
    }
  }

  lemma {:induction false} SplitBelow(f: Filter, i: nat)
    requires f.And? && SubFilter(f, i) && PredicateFor(f).Ok? && ScalarPrefilter(f).Ok?
    ensures PredicateFor(f.children[i]).Ok? && ScalarPrefilter(f.children[i]).Ok?
  {
    hide AtomPredicate, CombineAnd, CombineOr;
    var results := seq(|f.children|, i requires 0 <= i < |f.children| => PredicateFor(f.children[i]));
    var prefilters := seq(|f.children|, i requires 0 <= i < |f.children| => ScalarPrefilter(f.children[i]));
    CollectSomeKeeps(results, (p: SP.SearchPredicate) => true);
    CollectSomeKeeps(prefilters, (p: Filter) => true);
    assert results[i].Ok? && prefilters[i].Ok?;
  }

  lemma {:induction false} SearchOrIsRegion(f: Filter)
    requires f.Or? && ContainsSearchAtom(f) && PredicateFor(f).Ok?
    ensures Region(f) && Relax(f, true) == Relax(f, false)
    ensures NothingFalseDropped(f, true) == NothingFalseDropped(f, false)
  {
  }

  /** Something false is dropped and what is left can hold: some atoms tell them apart. */
  lemma {:induction false} SpineWitness(f: Filter) returns (atoms: set<Filter>)
    requires PredicateFor(f).Ok? && ScalarPrefilter(f).Ok? && ReadOnce(f)
    requires !NothingFalseDropped(f, false) && CanHold(f)
    ensures atoms <= Atoms(f) && HoldsAt(Relax(f, false), atoms) && !HoldsAt(f, atoms)
  {
    hide PredicateFor, ScalarPrefilter, Relax, HoldsAt;
    assert f.And? || f.Or?;
    if f.Or? {
      if !ContainsSearchAtom(f) {
        ScalarDropsNothing(f);
      }
      SearchOrIsRegion(f);
      atoms := Witness(f);
    } else {
      var i := DroppedChild(f, false);
      SplitBelow(f, i);
      LeftChildHolds(f, i);
      assert ReadOnce(f.children[i]);
      var inner := SpineWitness(f.children[i]);
      atoms := OnlyInside(f, f.children[i], inner);
      SpineInAnd(f, i, inner);
    }
  }

  lemma {:induction false} LeftChildHolds(f: Filter, i: nat)
    requires f.And? && SubFilter(f, i) && CanHold(f)
    ensures CanHold(f.children[i]) && HoldsAt(Relax(f.children[i], false), Atoms(f))
  {
    hide Relax, Atoms;
    RelaxedChild(f, false, i);
    AtomsBelow(f, i);
    RelaxedAtoms(f.children[i], false);
    SameAtoms(Relax(f.children[i], false), Atoms(f), Atoms(f.children[i]));
  }

  lemma {:induction false} SpineInAnd(f: Filter, i: nat, inner: set<Filter>)
    requires CanHold(f) && ReadOnce(f) && f.And? && SubFilter(f, i)
    requires inner <= Atoms(f.children[i]) && HoldsAt(Relax(f.children[i], false), inner) && !HoldsAt(f.children[i], inner)
    ensures var atoms := OnlyInside(f, f.children[i], inner);
            atoms <= Atoms(f) && HoldsAt(Relax(f, false), atoms) && !HoldsAt(f, atoms)
  {
    hide Relax, ReadOnce, Atoms, CanHold;
    var atoms := OnlyInside(f, f.children[i], inner);
    RelaxedChild(f, false, i);
    forall j | SubFilter(f, j)
      ensures HoldsAt(Relax(f, false).children[j], atoms)
    {
      OnlyInsideAgrees(f, i, inner, j);
      RelaxedChild(f, false, j);
      RelaxedAtoms(f.children[j], false);
      if j == i {
        SameAtoms(Relax(f.children[i], false), atoms, inner);
      } else {
        LeftChildHolds(f, j);
        AtomsBelow(f, j);
        SameAtoms(Relax(f.children[j], false), atoms, Atoms(f));
      }
    }
    OnlyInsideAgrees(f, i, inner, i);
    SameAtoms(f.children[i], atoms, inner);
    AtomsBelow(f, i);
  }

  // ---- atoms that runs can value freely ----

  /** The index leaves a predicate asks. */
  function Leaves(p: SP.SearchPredicate): set<SP.SearchPredicate> {
    match p
    case And(children) => set i, leaf | 0 <= i < |children| && leaf in Leaves(children[i]) :: leaf
    case Or(children) => set i, leaf | 0 <= i < |children| && leaf in Leaves(children[i]) :: leaf
    case Not(child) => Leaves(child)
    case _ => {p}
  }

  predicate Disjunction(p: SP.SearchPredicate) {
    match p
    case And(_) => false
    case Or(children) => children != [] && forall i :: 0 <= i < |children| ==> Disjunction(children[i])
    case Not(_) => false
    case _ => true
  }

  predicate Negated(a: Filter) {
    match AtomPredicate(a)
    case Ok(Some(Not(_))) => true
    case _ => false
  }

  function Core(a: Filter): SP.SearchPredicate {
    match AtomPredicate(a)
    case Ok(Some(Not(p))) => p
    case Ok(Some(p)) => p
    case _ => SP.And([])
  }

  lemma {:induction false} LeafBelow(p: SP.SearchPredicate, i: nat)
    requires p.Or? && i < |p.children|
    ensures Leaves(p.children[i]) <= Leaves(p)
  {
  }

  lemma {:induction false} AllOrNothing(p: SP.SearchPredicate, leaf: SP.SearchPredicate -> bool, answer: bool)
    requires Disjunction(p) && forall q :: q in Leaves(p) ==> leaf(q) == answer
    ensures SP.Eval(p, leaf) == answer
  {
    if p.Or? {
      forall i | 0 <= i < |p.children|
        ensures SP.Eval(p.children[i], leaf) == answer
      {
        LeafBelow(p, i);
        AllOrNothing(p.children[i], leaf, answer);
      }
      assert SP.Eval(p.children[0], leaf) == answer;
    }
  }

  lemma {:induction false} LeavesAreDisjunction(parts: seq<SP.SearchPredicate>)
    requires parts != [] && forall i :: 0 <= i < |parts| ==> Disjunction(parts[i])
    ensures Disjunction(OneOrAny(parts)) && Disjunction(SP.Or(parts)) && CombineOr(parts).Some? && Disjunction(CombineOr(parts).value)
  {
  }

  lemma {:induction false} PayloadDisjunctions(field: Field, query: SP.SearchQuery, text: Bytes.ByteString)
    requires IsPayload(field)
    ensures Disjunction(PayloadText(field, query)) && Disjunction(PayloadExactValue(field, text))
    ensures Disjunction(PayloadPath(field, text)) && Disjunction(PayloadExactPathText(field, text, query))
  {
    var scopes, prefixes := PayloadScopes(field), PayloadPrefixes(field);
    LeavesAreDisjunction(seq(|scopes|, i requires 0 <= i < |scopes| => SP.Text(scopes[i], query)));
    LeavesAreDisjunction(seq(|scopes|, i requires 0 <= i < |scopes| => SP.ExactValue(scopes[i], text)));
    if prefixes != [] {
      LeavesAreDisjunction(seq(|prefixes|, i requires 0 <= i < |prefixes| => SP.JsonKey(JoinPath(prefixes[i], text))));
      LeavesAreDisjunction(seq(|prefixes|, i requires 0 <= i < |prefixes| => SP.Text(SP.ExactPath(JoinPath(prefixes[i], text)), query)));
    }
  }

  lemma {:induction false} ValuesDisjunction(field: Field, values: seq<Value>)
    requires IsPayload(field) && values != []
    ensures CombineOr(ValueParts(field, values)).Some? && Disjunction(CombineOr(ValueParts(field, values)).value)
  {
    hide PayloadExactValue, AsString;
    var parts := ValueParts(field, values);
    forall i | 0 <= i < |parts|
      ensures Disjunction(parts[i])
    {
      PayloadDisjunctions(field, SP.ParseQuery([]), AsString(values[i]));
    }
    LeavesAreDisjunction(parts);
  }

  /** Every search atom asks for one of some leaves, or for none of them. */
  lemma {:induction false} AtomShape(a: Filter)
    requires IsSearchAtom(a) && AtomPredicate(a).Ok?
    ensures AtomPredicate(a).value == Some(if Negated(a) then SP.Not(Core(a)) else Core(a))
    ensures Disjunction(Core(a))
  {
    hide PayloadText, PayloadExactValue, PayloadExactPathText, PayloadPath, SP.ParseQuery, AsString, CombineOr;
    match a
    case Search(Some(field), query) =>
      if IsPayload(field) {
        PayloadDisjunctions(field, SP.ParseQuery(query), []);
      }
    case JsonKey(Some(field), pattern) => PayloadDisjunctions(field, SP.ParseQuery([]), pattern);
    case JsonKeySearch(Some(field), path, query) => PayloadDisjunctions(field, SP.ParseQuery(query), path);
    case Compare(op, field, value) => PayloadDisjunctions(field, SP.ParseQuery([]), AsString(value));
    case Has(field, value) => PayloadDisjunctions(field, SP.ParseQuery([]), AsString(value));
    case In(field, values) =>
      ValuesDisjunction(field, values);
      InHolds(field, values, (p: SP.SearchPredicate) => true);
    case Contains(field, value, negated) => PayloadDisjunctions(field, SP.ParseQuery(AsString(value)), []);
    case _ =>
  }

  /** Different search atoms of the filter ask different leaves. */
  predicate Apart(f: Filter) {
    forall a, b :: a in Atoms(f) && b in Atoms(f) && IsSearchAtom(a) && IsSearchAtom(b) && a != b ==>
      Leaves(Core(a)) !! Leaves(Core(b))
  }

  lemma {:induction false} SearchAtomInside(f: Filter, a: Filter)
    requires a in Atoms(f) && IsSearchAtom(a)
    ensures ContainsSearchAtom(f)
  {
    if f.And? || f.Or? {
      var i := AtomFrom(f, a);
      SearchAtomInside(f.children[i], a);
    }
  }

  lemma {:induction false} AtomsTranslate(f: Filter, a: Filter)
    requires PredicateFor(f).Ok? && a in Atoms(f) && IsSearchAtom(a)
    ensures AtomPredicate(a).Ok?
  {
    hide AtomPredicate, CombineAnd, CombineOr, IsSearchAtom;
    if f.And? || f.Or? {
      var i := AtomFrom(f, a);
      var results := seq(|f.children|, i requires 0 <= i < |f.children| => PredicateFor(f.children[i]));
      SearchAtomInside(f, a);
      if f.And? {
        CollectSomeKeeps(results, (p: SP.SearchPredicate) => true);
      } else {
        CollectAllKeeps(results);
      }
      assert results[i].Ok?;
      AtomsTranslate(f.children[i], a);
    }
  }

  lemma {:induction false} AtomIsAtom(f: Filter, a: Filter)
    requires a in Atoms(f)
    ensures !a.And? && !a.Or?
  {
    if f.And? || f.Or? {
      var i := AtomFrom(f, a);
      AtomIsAtom(f.children[i], a);
    }
  }

  /** Answer every leaf so that exactly the given atoms hold. */
  predicate Answer(f: Filter, atoms: set<Filter>, p: SP.SearchPredicate) {
    exists a :: a in Atoms(f) && IsSearchAtom(a) && p in Leaves(Core(a)) && (a in atoms) != Negated(a)
  }

  lemma {:induction false} AtomAnswered(f: Filter, atoms: set<Filter>, a: Filter, leaf: SP.SearchPredicate -> bool, scalar: Filter -> bool)
    requires PredicateFor(f).Ok? && Apart(f) && a in Atoms(f)
    requires forall p :: leaf(p) == Answer(f, atoms, p)
    requires forall b :: scalar(b) == (b in atoms)
    ensures Holds(a, scalar, leaf) <==> a in atoms
  {
    hide AtomPredicate, PredicateFor, SearchAtomHolds, Atoms, Leaves, Core, Negated;
    AtomIsAtom(f, a);
    if IsSearchAtom(a) {
      AtomsTranslate(f, a);
      AtomShape(a);
      AtomAgrees(a, leaf);
      forall p | p in Leaves(Core(a))
        ensures leaf(p) == ((a in atoms) != Negated(a))
      {
      }
      AllOrNothing(Core(a), leaf, (a in atoms) != Negated(a));
      assert SP.Eval(SP.Not(Core(a)), leaf) == !SP.Eval(Core(a), leaf);
    }
  }

  lemma {:induction false} HoldsByAtoms(f: Filter, atoms: set<Filter>, scalar: Filter -> bool, leaf: SP.SearchPredicate -> bool)
    requires forall a :: a in Atoms(f) ==> (Holds(a, scalar, leaf) <==> a in atoms)
    ensures Holds(f, scalar, leaf) <==> HoldsAt(f, atoms)
  {
    hide SearchAtomHolds;
    if f.And? || f.Or? {
      forall i | SubFilter(f, i)
        ensures Holds(f.children[i], scalar, leaf) <==> HoldsAt(f.children[i], atoms)
      {
        AtomsBelow(f, i);
        HoldsByAtoms(f.children[i], atoms, scalar, leaf);
      }
      hide Atoms;
    }
  }

  // ---- the main result ----

  /** The two halves of the split together accept exactly the runs the filter accepts. */
  ghost predicate SplitRight(f: Filter)
    requires PredicateFor(f).Ok? && ScalarPrefilter(f).Ok?
  {
    forall scalar, leaf :: SplitHolds(f, scalar, leaf) <==> Holds(f, scalar, leaf)
  }

  /** Both sides of a filter whose rest cannot hold are false. */
  lemma {:induction false} NeverHolds(f: Filter, scalar: Filter -> bool, leaf: SP.SearchPredicate -> bool)
    requires PredicateFor(f).Ok? && ScalarPrefilter(f).Ok? && !CanHold(f)
    ensures !SplitHolds(f, scalar, leaf) && !Holds(f, scalar, leaf)
  {
    hide PredicateFor, ScalarPrefilter, Relax, SplitHolds, Atoms, HoldsAt;
    var atoms := set a | a in Atoms(f) && Holds(a, scalar, leaf);
    RelaxedAtoms(f, false);
    HoldsByAtoms(Relax(f, false), atoms, scalar, leaf);
    if HoldsAt(Relax(f, false), atoms) {
      MoreAtoms(Relax(f, false), atoms, Atoms(f));
    }
    SplitMeansRelaxed(f, scalar, leaf);
    RelaxLoosens(f, false, scalar, leaf);
  }

  lemma {:induction false} ToldApart(f: Filter, atoms: set<Filter>)
    requires PredicateFor(f).Ok? && ScalarPrefilter(f).Ok? && Apart(f)
    requires HoldsAt(Relax(f, false), atoms) && !HoldsAt(f, atoms)
    ensures !SplitRight(f)
  {
    hide PredicateFor, ScalarPrefilter, Relax, SplitHolds, Atoms, HoldsAt, Holds, Answer;
    var scalar := (b: Filter) => b in atoms;
    var leaf := (p: SP.SearchPredicate) => Answer(f, atoms, p);
    forall a | a in Atoms(f)
      ensures Holds(a, scalar, leaf) <==> a in atoms
    {
      AtomAnswered(f, atoms, a, leaf, scalar);
    }
    RelaxedAtoms(f, false);
    HoldsByAtoms(f, atoms, scalar, leaf);
    HoldsByAtoms(Relax(f, false), atoms, scalar, leaf);
    SplitMeansRelaxed(f, scalar, leaf);
  }

  /**
   For filters that name no atom twice and whose atoms ask different leaves: the split
   is right for every run if and only if it drops nothing false, or what it leaves can
   never hold.
   */
  lemma {:induction false} SplitRightIff(f: Filter)
    requires PredicateFor(f).Ok? && ScalarPrefilter(f).Ok?
    requires ReadOnce(f) && Apart(f)
    ensures SplitRight(f) <==> NothingFalseDropped(f, false) || !CanHold(f)
  {
    hide PredicateFor, ScalarPrefilter, NothingFalseDropped, CanHold, ReadOnce, Apart, SplitHolds, Holds, Relax, HoldsAt;
    if NothingFalseDropped(f, false) {
      forall scalar, leaf
        ensures SplitHolds(f, scalar, leaf) <==> Holds(f, scalar, leaf)
      {
        SplitPreservesMeaning(f, scalar, leaf);
      }
    } else if !CanHold(f) {
      forall scalar, leaf
        ensures SplitHolds(f, scalar, leaf) <==> Holds(f, scalar, leaf)
      {
        NeverHolds(f, scalar, leaf);
      }
    } else {
      var atoms := SpineWitness(f);
      ToldApart(f, atoms);
    }
  }
}
