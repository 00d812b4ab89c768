/**
 Parent pointers of one trace: chains, cycles and descendants.
 `parents` maps every known span to its (possibly missing) parent pointer.
 */
module ParentChains {
  import opened Wrappers

  type SpanId = string
  type Parents = map<SpanId, Option<SpanId>>

  /** The n-th span up the chain that starts at `x`; a chain ends at a missing pointer or an unknown span. */
  ghost function Up(parents: Parents, x: SpanId, n: nat): Option<SpanId> {
    if n == 0 then Some(x)
    else
      match Up(parents, x, n - 1)
      case None => None
      case Some(y) => if y in parents then parents[y] else None
  }

  ghost predicate UpIs(parents: Parents, x: SpanId, n: nat, y: SpanId) {
    Up(parents, x, n) == Some(y)
  }

  /** `y` is `x` or lies above it. */
  ghost predicate Reaches(parents: Parents, x: SpanId, y: SpanId) {
    exists n: nat :: UpIs(parents, x, n, y)
  }

  ghost predicate ProperDescendant(parents: Parents, x: SpanId, y: SpanId) {
    exists n: nat :: n >= 1 && UpIs(parents, x, n, y)
  }

  ghost predicate OnCycle(parents: Parents, x: SpanId) {
    ProperDescendant(parents, x, x)
  }

  ghost predicate Acyclic(parents: Parents) {
    forall x :: !OnCycle(parents, x)
  }

  lemma {:induction false} UpAdd(parents: Parents, x: SpanId, y: SpanId, m: nat, n: nat)
    requires UpIs(parents, x, m, y)
    ensures Up(parents, x, m + n) == Up(parents, y, n)
    decreases n
  {
    if n > 0 {
      UpAdd(parents, x, y, m, n - 1);
    }
  }

  lemma {:induction false} UpEnds(parents: Parents, x: SpanId, m: nat, n: nat)
    requires m <= n && Up(parents, x, m) == None
    ensures Up(parents, x, n) == None
    decreases n
  {
    if m < n {
      UpEnds(parents, x, m, n - 1);
    }
  }

  /** Every span a chain passes is known, except possibly its end. */
  lemma {:induction false} UpKnown(parents: Parents, x: SpanId, n: nat)
    requires n >= 1 && Up(parents, x, n).Some?
    ensures Up(parents, x, n - 1).Some? && Up(parents, x, n - 1).value in parents
    ensures parents[Up(parents, x, n - 1).value] == Up(parents, x, n)
    ensures x in parents
    decreases n
  {
    if n > 1 {
      UpKnown(parents, x, n - 1);
    }
  }

  lemma {:induction false} ReachesTransitive(parents: Parents, x: SpanId, y: SpanId, z: SpanId)
    requires Reaches(parents, x, y) && Reaches(parents, y, z)
    ensures Reaches(parents, x, z)
    ensures ProperDescendant(parents, x, y) || ProperDescendant(parents, y, z) ==> ProperDescendant(parents, x, z)
  {
    var m: nat :| UpIs(parents, x, m, y);
    var n: nat :| UpIs(parents, y, n, z);
    UpAdd(parents, x, y, m, n);
    assert UpIs(parents, x, m + n, z);
    if ProperDescendant(parents, x, y) {
      var k: nat :| k >= 1 && UpIs(parents, x, k, y);
      UpAdd(parents, x, y, k, n);
      assert UpIs(parents, x, k + n, z);
    }
    if ProperDescendant(parents, y, z) {
      var k: nat :| k >= 1 && UpIs(parents, y, k, z);
      UpAdd(parents, x, y, m, k);
      assert UpIs(parents, x, m + k, z);
    }
  }

  lemma {:induction false} ReachesUnfold(parents: Parents, x: SpanId, y: SpanId)
    ensures Reaches(parents, x, y) <==> x == y || ProperDescendant(parents, x, y)
  {
    assert UpIs(parents, x, 0, x);
    if Reaches(parents, x, y) {
      var n: nat :| UpIs(parents, x, n, y);
      assert n == 0 ==> x == y;
    }
  }

  /** One step up: a span lies properly below `y` exactly when its parent pointer reaches `y`. */
  lemma {:induction false} DescendantUnfold(parents: Parents, x: SpanId, y: SpanId)
    ensures ProperDescendant(parents, x, y) <==>
            x in parents && parents[x].Some? && Reaches(parents, parents[x].value, y)
  {
    if ProperDescendant(parents, x, y) {
      var n: nat :| n >= 1 && UpIs(parents, x, n, y);
      UpKnown(parents, x, n);
      assert Up(parents, x, 0) == Some(x);
      if parents[x].None? {
        assert Up(parents, x, 1) == None;
        UpEnds(parents, x, 1, n);
        assert false;
      } else {
        assert UpIs(parents, x, 1, parents[x].value);
        UpAdd(parents, x, parents[x].value, 1, n - 1);
        assert UpIs(parents, parents[x].value, n - 1, y);
      }
    }
    if x in parents && parents[x].Some? && Reaches(parents, parents[x].value, y) {
      var p := parents[x].value;
      var n: nat :| UpIs(parents, p, n, y);
      assert Up(parents, x, 0) == Some(x);
      assert UpIs(parents, x, 1, p);
      UpAdd(parents, x, p, 1, n);
      assert UpIs(parents, x, n + 1, y);
    }
  }

  /** Two spans above the same span lie on one chain. */
  lemma {:induction false} ChainLinear(parents: Parents, x: SpanId, y: SpanId, z: SpanId)
    requires Reaches(parents, x, y) && Reaches(parents, x, z)
    ensures Reaches(parents, y, z) || Reaches(parents, z, y)
  {
    var m: nat :| UpIs(parents, x, m, y);
    var n: nat :| UpIs(parents, x, n, z);
    if m <= n {
      UpAdd(parents, x, y, m, n - m);
      assert UpIs(parents, y, n - m, z);
    } else {
      UpAdd(parents, x, z, n, m - n);
      assert UpIs(parents, z, m - n, y);
    }
  }

  /** A chain that repeats a span visits nothing outside its first lap. */
  lemma {:induction false} RepeatedSpan(parents: Parents, x: SpanId, j: nat, k: nat, n: nat)
    requires j < k && Up(parents, x, j).Some? && Up(parents, x, j) == Up(parents, x, k)
    ensures exists i: nat :: i < k && Up(parents, x, i) == Up(parents, x, n)
    decreases n
  {
    if n >= k {
      var y := Up(parents, x, j).value;
      UpAdd(parents, x, y, j, n - k);
      UpAdd(parents, x, y, k, n - k);
      assert Up(parents, x, j + (n - k)) == Up(parents, x, n);
      RepeatedSpan(parents, x, j, k, j + (n - k));
    }
  }

  /** Dropping pointers drops chains. */
  lemma {:induction false} FewerPointers(some: Parents, all: Parents, x: SpanId, n: nat)
    requires forall y :: y in some ==> y in all && (some[y] == None || some[y] == all[y])
    requires Up(some, x, n).Some?
    ensures Up(some, x, n) == Up(all, x, n)
  {
    if n > 0 {
      UpKnown(some, x, n);
      FewerPointers(some, all, x, n - 1);
    }
  }

  /**
   The walk of `parent_creates_cycle`: from `parent` upward until `child` turns up, a span
   repeats, or the chain ends.  It answers exactly whether `child` lies above `parent`.
   */
  method ParentCreatesCycle(child: SpanId, parent: SpanId, parents: Parents) returns (found: bool)
    ensures found <==> Reaches(parents, parent, child)
  {
    var seen: set<SpanId> := {};
    var current: Option<SpanId> := Some(parent);
    ghost var k: nat := 0;
    while current.Some?
      invariant current == Up(parents, parent, k)
      invariant forall i: nat :: i < k ==> Up(parents, parent, i).Some? && Up(parents, parent, i).value in seen
      invariant forall s :: s in seen ==> exists i: nat :: i < k && UpIs(parents, parent, i, s)
      invariant child !in seen
      decreases parents.Keys - seen, if current.Some? then 1 else 0
    {
      var spanId := current.value;
      if spanId == child {
        assert UpIs(parents, parent, k, child);
        return true;
      }
      if spanId in seen {
        NeverFound(parents, parent, child, seen, k);
        return false;
      }
      ghost var before := seen;
      seen := seen + {spanId};
      assert UpIs(parents, parent, k, spanId);
      current := if spanId in parents then parents[spanId] else None;
      k := k + 1;
      assert Up(parents, parent, k) == current;
      assert spanId in parents ==> spanId in parents.Keys - before && spanId !in parents.Keys - seen;
    }
    forall n: nat | UpIs(parents, parent, n, child)
      ensures false
    {
      if n >= k {
        UpEnds(parents, parent, k, n);
      }
    }
    return false;
  }

  lemma {:induction false} NeverFound(parents: Parents, parent: SpanId, child: SpanId, seen: set<SpanId>, k: nat)
    requires Up(parents, parent, k).Some? && Up(parents, parent, k).value in seen
    requires forall i: nat :: i < k ==> Up(parents, parent, i).Some? && Up(parents, parent, i).value in seen
    requires forall s :: s in seen ==> exists i: nat :: i < k && UpIs(parents, parent, i, s)
    requires child !in seen
    ensures !Reaches(parents, parent, child)
  {
    var s := Up(parents, parent, k).value;
    var j: nat :| j < k && UpIs(parents, parent, j, s);
    forall n: nat | UpIs(parents, parent, n, child)
      ensures false
    {
      RepeatedSpan(parents, parent, j, k, n);
    }
  }

  /**
   The pointer the index keeps: known, not the span itself, and not closing a cycle.
   */
  ghost function EffectiveParent(parents: Parents, x: SpanId): Option<SpanId>
    requires x in parents
  {
    if parents[x].Some? && parents[x].value in parents && !Reaches(parents, parents[x].value, x)
    then parents[x]
    else None
  }

  ghost function EffectiveParents(parents: Parents): Parents {
    map x | x in parents :: EffectiveParent(parents, x)
  }

  /** A pointer is kept exactly when its target is known and its span lies on no cycle. */
  lemma {:induction false} EffectiveParentIs(parents: Parents, x: SpanId)
    requires x in parents
    ensures parents[x].Some? && parents[x].value in parents && !OnCycle(parents, x) ==> EffectiveParent(parents, x) == parents[x]
    ensures parents[x].None? || parents[x].value !in parents || OnCycle(parents, x) ==> EffectiveParent(parents, x) == None
  {
    CycleFlagExact(parents, x);
    hide Reaches, OnCycle;
  }

  /** Cutting exactly the spans on a cycle leaves a forest over the same spans. */
  lemma {:induction false} EffectiveParentsAcyclic(parents: Parents)
    ensures Acyclic(EffectiveParents(parents))
    ensures EffectiveParents(parents).Keys == parents.Keys
    ensures forall x :: x in parents && EffectiveParents(parents)[x].Some? ==> EffectiveParents(parents)[x].value in parents
  {
    var e := EffectiveParents(parents);
    forall x | OnCycle(e, x)
      ensures false
    {
      var n: nat :| n >= 1 && UpIs(e, x, n, x);
      FewerPointers(e, parents, x, n);
      assert UpIs(parents, x, n, x);
      DescendantUnfold(e, x, x);
      DescendantUnfold(parents, x, x);
    }
  }

  /** The cycle flag of the index is set exactly on the spans that lie on a parent cycle. */
  lemma {:induction false} CycleFlagExact(parents: Parents, x: SpanId)
    requires x in parents
    ensures OnCycle(parents, x) <==>
            parents[x].Some? && parents[x].value in parents && Reaches(parents, parents[x].value, x)
  {
    DescendantUnfold(parents, x, x);
    if OnCycle(parents, x) && parents[x].value !in parents {
      var p := parents[x].value;
      var n: nat :| UpIs(parents, p, n, x);
      if n > 0 {
        UpKnown(parents, p, n);
      }
    }
  }
}
