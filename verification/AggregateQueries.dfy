/**
 The loops that aggregate rows, on one node and over partitions
 (src/query/aggregates.rs, src/query/aggregates/distributed.rs).
 */
module AggregateQueries {
  import opened Aggregates
  import opened AggregateMeaning

  /** The accumulators after some pushes per group. */
  ghost predicate Accumulators(arith: Arithmetic, accs: map<Group, Accumulator>, groups: set<Group>, pushes: Group -> seq<Push>) {
    accs.Keys == groups && (forall g :: g in groups ==> accs[g] == Accumulated(arith, pushes(g))) && forall g :: g !in groups ==> pushes(g) == []
  }

  lemma {:induction false} OnePush(
    arith: Arithmetic, accs: map<Group, Accumulator>, groups: set<Group>, pushes: Group -> seq<Push>, more: Group -> seq<Push>, group: Group, push: Push)
    requires Accumulators(arith, accs, groups, pushes)
    requires forall g :: more(g) == Added(pushes(g), if g == group then [push] else [])
    ensures var acc := if group in accs then accs[group] else NOTHING;
            Accumulators(arith, accs[group := Pushed(arith, acc, push)], groups + {group}, more)
  {
    var acc := if group in accs then accs[group] else NOTHING;
    var after := accs[group := Pushed(arith, acc, push)];
    AccumulatedOneMore(arith, pushes(group), push);
    NoneAccumulated(arith);
    hide Accumulated, Pushed;
    assert after.Keys == groups + {group};
    forall g | g in groups + {group}
      ensures after[g] == Accumulated(arith, more(g))
    {
      if g == group {
        assert more(g) == pushes(g) + [push];
      } else {
        assert more(g) == pushes(g);
      }
    }
    forall g | g !in groups + {group}
      ensures more(g) == []
    {
      assert more(g) == pushes(g);
    }
  }

  lemma {:induction false} AccumulatedOneMore(arith: Arithmetic, pushes: seq<Push>, push: Push)
    ensures Accumulated(arith, pushes + [push]) == Pushed(arith, Accumulated(arith, pushes), push)
  {
    assert (pushes + [push])[..|pushes|] == pushes;
    hide Pushed;
  }

  lemma {:induction false} NoneAccumulated(arith: Arithmetic)
    ensures Accumulated(arith, []) == NOTHING
  {
  }

  /** The pushes of a row's variants after those already done. */
  function Plus(done: Group -> seq<Push>, row: Row, variants: seq<Variant>): Group -> seq<Push> {
    (g: Group) => done(g) + RowPushes(row, variants, g)
  }

  function AllPushes(rows: seq<Row>, query: Query, context: Context): Group -> seq<Push> {
    (g: Group) => PushesTo(rows, query, context, g)
  }

  /** `aggregate_rows`: the group map filled push by push, then every accumulator finished. */
  method AggregateRows(arith: Arithmetic, rows: seq<Row>, query: Query, context: Context) returns (output: map<Group, Metrics>)
    ensures output == Aggregated(arith, rows, query, context)
    ensures Means(arith, rows, query, context, output)
  {
    hide *;
    var accs: map<Group, Accumulator> := map[];
    NoRows(arith, rows, query, context);
    AggregatedMeans(arith, rows, query, context);
    for i := 0 to |rows|
      invariant Accumulators(arith, accs, Groups(rows[..i], query, context), AllPushes(rows[..i], query, context))
    {
      var variants := Variants(rows[i], query, context);
      accs := PushVariants(arith, accs, rows[i], variants, Groups(rows[..i], query, context), AllPushes(rows[..i], query, context));
      RowDone(arith, accs, rows, i, query, context);
    }
    assert rows[..|rows|] == rows;
    FinishAll(arith, rows, query, context, accs);
    output := map g | g in accs :: Finished(arith, accs[g]);
  }

  lemma {:induction false} NoRows(arith: Arithmetic, rows: seq<Row>, query: Query, context: Context)
    ensures Accumulators(arith, map[], Groups(rows[..0], query, context), AllPushes(rows[..0], query, context))
  {
  }

  lemma {:induction false} RowDone(arith: Arithmetic, accs: map<Group, Accumulator>, rows: seq<Row>, i: nat, query: Query, context: Context)
    requires i < |rows|
    requires Accumulators(arith, accs, Groups(rows[..i], query, context) + GroupsIn(Variants(rows[i], query, context)),
                          Plus(AllPushes(rows[..i], query, context), rows[i], Variants(rows[i], query, context)))
    ensures Accumulators(arith, accs, Groups(rows[..i + 1], query, context), AllPushes(rows[..i + 1], query, context))
  {
    hide Variants, RowPushes, Accumulators, GroupsIn;
    assert rows[..i + 1][..i] == rows[..i];
    assert rows[..i + 1] == rows[..i] + [rows[i]];
    assert Groups(rows[..i + 1], query, context) == Groups(rows[..i], query, context) + GroupsIn(Variants(rows[i], query, context));
    Renamed(arith, accs, Groups(rows[..i + 1], query, context),
            Plus(AllPushes(rows[..i], query, context), rows[i], Variants(rows[i], query, context)), AllPushes(rows[..i + 1], query, context));
  }

  lemma {:induction false} Renamed(arith: Arithmetic, accs: map<Group, Accumulator>, groups: set<Group>, a: Group -> seq<Push>, b: Group -> seq<Push>)
    requires Accumulators(arith, accs, groups, a) && forall g :: a(g) == b(g)
    ensures Accumulators(arith, accs, groups, b)
  {
  }

  lemma {:induction false} FinishAll(arith: Arithmetic, rows: seq<Row>, query: Query, context: Context, accs: map<Group, Accumulator>)
    requires Accumulators(arith, accs, Groups(rows, query, context), AllPushes(rows, query, context))
    ensures (map g | g in accs :: Finished(arith, accs[g])) == Aggregated(arith, rows, query, context)
  {
    hide Finished, Groups, PushesTo, Accumulated;
  }

  /** One row's variants, each pushed into its group. */
  method PushVariants(
    arith: Arithmetic, before: map<Group, Accumulator>, row: Row, variants: seq<Variant>, ghost groups: set<Group>, ghost done: Group -> seq<Push>)
    returns (accs: map<Group, Accumulator>)
    requires Accumulators(arith, before, groups, done)
    ensures Accumulators(arith, accs, groups + GroupsIn(variants), Plus(done, row, variants))
  {
    accs := before;
    NoVariants(arith, accs, row, variants, groups, done);
    hide *;
    for i := 0 to |variants|
      invariant Accumulators(arith, accs, groups + GroupsIn(variants[..i]), Plus(done, row, variants[..i]))
    {
      var v := variants[i];
      VariantDone(arith, accs, row, variants, i, groups, done);
      accs := accs[v.group := Pushed(arith, if v.group in accs then accs[v.group] else NOTHING, Push(row, v.feedback))];
    }
    assert variants[..|variants|] == variants;
  }

  lemma {:induction false} NoVariants(
    arith: Arithmetic, accs: map<Group, Accumulator>, row: Row, variants: seq<Variant>, groups: set<Group>, done: Group -> seq<Push>)
    requires Accumulators(arith, accs, groups, done)
    ensures Accumulators(arith, accs, groups + GroupsIn(variants[..0]), Plus(done, row, variants[..0]))
  {
    hide Accumulated, Accumulators;
    assert GroupsIn(variants[..0]) == {};
    forall g
      ensures done(g) == Plus(done, row, variants[..0])(g)
    {
    }
    Renamed(arith, accs, groups, done, Plus(done, row, variants[..0]));
    assert groups + GroupsIn(variants[..0]) == groups;
  }

  lemma {:induction false} VariantDone(
    arith: Arithmetic, accs: map<Group, Accumulator>, row: Row, variants: seq<Variant>, i: nat, groups: set<Group>, done: Group -> seq<Push>)
    requires i < |variants|
    requires Accumulators(arith, accs, groups + GroupsIn(variants[..i]), Plus(done, row, variants[..i]))
    ensures var group := variants[i].group;
            Accumulators(arith, accs[group := Pushed(arith, if group in accs then accs[group] else NOTHING, Push(row, variants[i].feedback))],
                         groups + GroupsIn(variants[..i + 1]), Plus(done, row, variants[..i + 1]))
  {
    var v := variants[i];
    assert variants[..i + 1][..i] == variants[..i] && variants[..i + 1][i] == v;
    hide Accumulators, Pushed;
    var before, after := Plus(done, row, variants[..i]), Plus(done, row, variants[..i + 1]);
    PlusOne(done, row, variants, i);
    OnePush(arith, accs, groups + GroupsIn(variants[..i]), before, after, v.group, Push(row, v.feedback));
    OneMoreGroup(variants, i, groups);
    hide *;
  }

  lemma {:induction false} PlusOne(done: Group -> seq<Push>, row: Row, variants: seq<Variant>, i: nat)
    requires i < |variants|
    ensures forall g :: Plus(done, row, variants[..i + 1])(g) == Added(Plus(done, row, variants[..i])(g), VariantPush(row, variants[i], g))
  {
    var v := variants[i];
    assert variants[..i + 1][..i] == variants[..i] && variants[..i + 1][i] == v;
    forall g
      ensures Plus(done, row, variants[..i + 1])(g) == Added(Plus(done, row, variants[..i])(g), VariantPush(row, v, g))
    {
      var more := VariantPush(row, v, g);
      assert done(g) + (RowPushes(row, variants[..i], g) + more) == (done(g) + RowPushes(row, variants[..i], g)) + more;
    }
  }

  function VariantPush(row: Row, v: Variant, group: Group): seq<Push> {
    if group == v.group then [Push(row, v.feedback)] else []
  }

  function Added(pushes: seq<Push>, more: seq<Push>): seq<Push> {
    pushes + more
  }

  lemma {:induction false} OneMoreGroup(variants: seq<Variant>, i: nat, groups: set<Group>)
    requires i < |variants|
    ensures groups + GroupsIn(variants[..i + 1]) == groups + GroupsIn(variants[..i]) + {variants[i].group}
  {
    assert variants[..i + 1] == variants[..i] + [variants[i]];
    assert GroupsIn(variants[..i + 1]) == GroupsIn(variants[..i]) + {variants[i].group};
  }

  // ---- partitions ----

  function Keep(rows: seq<Row>, candidates: set<RunKey>): seq<Row> {
    Extract(rows, (row: Row) => if row.key in candidates then [row] else [])
  }

  /**
   The distributed query: partitions' rows arriving in any order, concatenated, filtered to
   the candidate runs and aggregated, give the single-node result.
   */
  method AggregatePartitions(
    arith: Arithmetic, arrived: seq<seq<Row>>, candidates: set<RunKey>, query: Query, context: Context, ghost all: seq<Row>)
    returns (output: map<Group, Metrics>)
    requires multiset(Extract(arrived, (part: seq<Row>) => part)) == multiset(all)
    ensures output == Aggregated(arith, Keep(all, candidates), query, context)
    ensures Means(arith, Keep(all, candidates), query, context, output)
  {
    var rows: seq<Row> := [];
    ghost var whole := (part: seq<Row>) => part;
    hide Variants, Aggregated, Means;
    for i := 0 to |arrived|
      invariant rows == Extract(arrived[..i], whole)
    {
      assert arrived[..i + 1][..i] == arrived[..i];
      rows := rows + arrived[i];
    }
    assert arrived[..|arrived|] == arrived;
    ExtractPermuted(rows, all, (row: Row) => if row.key in candidates then [row] else []);
    var kept := Keep(rows, candidates);
    AggregatesPermuted(arith, kept, Keep(all, candidates), query, context);
    output := AggregateRows(arith, kept, query, context);
    AggregatedMeans(arith, Keep(all, candidates), query, context);
  }

  /** The kept rows are those of candidate runs. */
  lemma {:induction false} KeepIs(rows: seq<Row>, candidates: set<RunKey>)
    ensures forall r :: multiset(Keep(rows, candidates))[r] == if r.key in candidates then multiset(rows)[r] else 0
  {
    if rows != [] {
      var n := |rows| - 1;
      KeepIs(rows[..n], candidates);
      assert rows == rows[..n] + [rows[n]];
    }
  }
}
