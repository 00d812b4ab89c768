/** Sequences of sequences, end to end. */
module Sequences {

  function Flatten<T>(parts: seq<seq<T>>): seq<T> {
    if parts == [] then [] else parts[0] + Flatten(parts[1..])
  }

  lemma {:induction false} FlattenUnfold<T>(parts: seq<seq<T>>)
    requires parts != []
    ensures Flatten(parts) == parts[0] + Flatten(parts[1..])
  {
  }

  lemma {:induction false} FlattenJoin<T>(a: seq<seq<T>>, b: seq<seq<T>>)
    ensures Flatten(a + b) == Flatten(a) + Flatten(b)
  {
    if a == [] {
      assert a + b == b && [] + Flatten(b) == Flatten(b);
    } else {
      var first, others := a[0], a[1..];
      FlattenJoin(others, b);
      assert (a + b)[0] == first && (a + b)[1..] == others + b;
      FlattenUnfold(a);
      FlattenUnfold(a + b);
      hide *;
      ThreeParts(first, Flatten(others), Flatten(b));
    }
  }

  lemma {:induction false} ThreeParts<T>(a: seq<T>, b: seq<T>, c: seq<T>)
    ensures a + (b + c) == (a + b) + c
  {
  }

  lemma {:induction false} FlattenOne<T>(part: seq<T>)
    ensures Flatten([part]) == part
  {
    assert [part][1..] == [];
    assert part + [] == part;
  }

  lemma {:induction false} FlattenAppend<T>(parts: seq<seq<T>>, last: seq<T>)
    ensures Flatten(parts + [last]) == Flatten(parts) + last
  {
    FlattenJoin(parts, [last]);
    FlattenOne(last);
  }

  /** The flat sequence from its last part. */
  lemma {:induction false} FlattenLast<T>(parts: seq<seq<T>>)
    requires parts != []
    ensures Flatten(parts) == Flatten(parts[..|parts| - 1]) + parts[|parts| - 1]
  {
    FlattenAppend(parts[..|parts| - 1], parts[|parts| - 1]);
    assert parts[..|parts| - 1] + [parts[|parts| - 1]] == parts;
  }

  // ---- parts in order ----

  /** `part` is what remains of `whole` when some elements are left out: the rest keep their order and number. */
  ghost predicate KeepsOrder<T(!new)>(part: seq<T>, whole: seq<T>) {
    exists at: seq<nat> :: StandsIn(part, whole, at)
  }

  /** The elements of `part` stand in `whole` at these increasing places. */
  ghost predicate StandsIn<T(!new)>(part: seq<T>, whole: seq<T>, at: seq<nat>) {
    && |at| == |part|
    && (forall i :: 0 <= i < |at| ==> at[i] < |whole| && whole[at[i]] == part[i])
    && (forall i, j :: 0 <= i < j < |at| ==> at[i] < at[j])
  }

  lemma {:induction false} KeepsAll<T(!new)>(whole: seq<T>)
    ensures KeepsOrder(whole, whole)
  {
    assert StandsIn(whole, whole, seq(|whole|, i => i));
  }

  lemma {:induction false} KeepsTwice<T(!new)>(some: seq<T>, part: seq<T>, whole: seq<T>)
    requires KeepsOrder(some, part) && KeepsOrder(part, whole)
    ensures KeepsOrder(some, whole)
  {
    var inner: seq<nat> :| StandsIn(some, part, inner);
    var outer: seq<nat> :| StandsIn(part, whole, outer);
    assert StandsIn(some, whole, seq(|inner|, i requires 0 <= i < |inner| => outer[inner[i]]));
  }

  /** Something in front of both. */
  lemma {:induction false} KeepsBehind<T(!new)>(front: seq<T>, part: seq<T>, whole: seq<T>)
    requires KeepsOrder(part, whole)
    ensures KeepsOrder(front + part, front + whole)
  {
    var at: seq<nat> :| StandsIn(part, whole, at);
    var n := |front|;
    assert StandsIn(front + part, front + whole, seq(n + |at|, i requires 0 <= i < n + |at| => if i < n then i else n + at[i - n]));
  }

  /** Something behind both. */
  lemma {:induction false} KeepsBefore<T(!new)>(part: seq<T>, whole: seq<T>, rear: seq<T>)
    requires KeepsOrder(part, whole)
    ensures KeepsOrder(part + rear, whole + rear)
  {
    var at: seq<nat> :| StandsIn(part, whole, at);
    var n := |at|;
    assert StandsIn(part + rear, whole + rear, seq(n + |rear|, i requires 0 <= i < n + |rear| => if i < n then at[i] else |whole| + (i - n)));
  }

  lemma {:induction false} KeepsRear<T(!new)>(front: seq<T>, rear: seq<T>, whole: seq<T>)
    requires KeepsOrder(front + rear, whole)
    ensures KeepsOrder(rear, whole)
  {
    var at: seq<nat> :| StandsIn(front + rear, whole, at);
    var n := |front|;
    assert forall i :: 0 <= i < |rear| ==> (front + rear)[n + i] == rear[i];
    assert StandsIn(rear, whole, at[n..]);
  }

  lemma {:induction false} KeepsWithout<T(!new)>(front: seq<T>, whole: seq<T>)
    ensures KeepsOrder(whole, front + whole)
  {
    var at: seq<nat> := seq(|whole|, i requires 0 <= i < |whole| => |front| + i);
    forall i | 0 <= i < |whole|
      ensures at[i] == |front| + i && (front + whole)[at[i]] == whole[i]
    {
    }
    assert StandsIn(whole, front + whole, at);
  }

  lemma {:induction false} KeepsMore<T(!new)>(part: seq<T>, whole: seq<T>, rear: seq<T>)
    requires KeepsOrder(part, whole)
    ensures KeepsOrder(part, whole + rear)
  {
    var at: seq<nat> :| StandsIn(part, whole, at);
    assert StandsIn(part, whole + rear, at);
  }
}
