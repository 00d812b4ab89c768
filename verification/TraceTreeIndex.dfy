/**
 The trace-tree index as a whole: what its nodes say of the runs and of one another, and
 what the planner reads off the numbers (src/ingest/tree.rs, src/query/planner.rs).
 */
module TraceTreeIndex {
  import opened Wrappers
  import opened ParentChains
  import opened TraceTree
  import Ordering

  predicate StartLeq(a: IndexNode, b: IndexNode) {
    a.subtreeStart <= b.subtreeStart
  }

  lemma {:induction false} StartLeqIsTotal()
    ensures Ordering.TotalPreorder(StartLeq)
  {
  }

  /** What `build_trace_tree_index` promises about its result. */
  ghost predicate TreeIndex(runs: seq<RunInput>, inputs: Inputs, children: Children, nodes: seq<IndexNode>) {
    && |nodes| == |runs|
    && Block(EffectiveParents(ParentsOf(runs)), nodes, ParentsOf(runs).Keys, 0, 2 * |runs|)
    && Ordering.Sorted(nodes, StartLeq)
    && Sources(runs, inputs, children)
    && AllCorrect(ParentsOf(runs), inputs, children, nodes)
  }

  /** The lookup tables behind the index: one input per run, children by effective parent in time order. */
  ghost predicate Sources(runs: seq<RunInput>, inputs: Inputs, children: Children) {
    && ForestOf(ParentsOf(runs), inputs, children)
    && SiblingsOrdered(inputs, children)
    && forall i :: 0 <= i < |runs| ==> runs[i].spanId in inputs && inputs[runs[i].spanId].run == runs[i]
  }

  /** Every node's fields are those of its run in the forest of effective parents, siblings in time order. */
  ghost predicate DescribedBySomeForest(runs: seq<RunInput>, nodes: seq<IndexNode>) {
    exists inputs, children :: Sources(runs, inputs, children) && AllCorrect(ParentsOf(runs), inputs, children, nodes)
  }

  // ---- the index in the terms of its runs ----

  ghost predicate Known(runs: seq<RunInput>, x: SpanId) {
    exists k :: 0 <= k < |runs| && runs[k].spanId == x
  }

  /** The run of `x` names `y` as its parent. */
  ghost predicate Points(runs: seq<RunInput>, x: SpanId, y: SpanId) {
    exists k :: 0 <= k < |runs| && runs[k].spanId == x && runs[k].parentSpanId == Some(y)
  }

  ghost predicate Climbs(runs: seq<RunInput>, x: SpanId, y: SpanId, n: nat)
    decreases n
  {
    if n == 0 then x == y else exists z :: Points(runs, x, z) && Climbs(runs, z, y, n - 1)
  }

  /** The parents of `x` lead back to `x`. */
  ghost predicate Loops(runs: seq<RunInput>, x: SpanId) {
    exists n: nat :: n >= 1 && Climbs(runs, x, x, n)
  }

  /** A pointer is kept if its target is known and its run is on no cycle; the two flags say why another is not. */
  ghost predicate Records(runs: seq<RunInput>, run: RunInput, node: IndexNode) {
    && node.spanId == run.spanId && node.runId == run.runId && node.generatedRunId == run.generatedRunId
    && (run.parentSpanId.Some? && Known(runs, run.parentSpanId.value) && !Loops(runs, run.spanId) ==>
          node.parentSpanId == run.parentSpanId)
    && (run.parentSpanId.None? || !Known(runs, run.parentSpanId.value) || Loops(runs, run.spanId) ==> node.parentSpanId == None)
    && (node.unresolvedParent <==> run.parentSpanId.Some? && !Known(runs, run.parentSpanId.value))
    && (node.cycleDetected <==> Loops(runs, run.spanId))
  }

  /** One node for every run, and no others. */
  ghost predicate EveryRunOnce(runs: seq<RunInput>, nodes: seq<IndexNode>) {
    && |nodes| == |runs|
    && (forall k: nat :: k < |runs| ==> RunRecorded(runs, k, nodes))
    && (forall i: nat :: i < |nodes| ==> NodeRecorded(runs, nodes, i))
  }

  ghost predicate RunRecorded(runs: seq<RunInput>, k: nat, nodes: seq<IndexNode>)
    requires k < |runs|
  {
    exists i :: 0 <= i < |nodes| && Records(runs, runs[k], nodes[i])
  }

  ghost predicate NodeRecorded(runs: seq<RunInput>, nodes: seq<IndexNode>, i: nat)
    requires i < |nodes|
  {
    exists k :: 0 <= k < |runs| && Records(runs, runs[k], nodes[i])
  }

  /** `n` kept pointers lead from node `i` to node `j`. */
  ghost predicate Above(nodes: seq<IndexNode>, i: nat, j: nat, n: nat)
    requires i < |nodes| && j < |nodes|
    decreases n
  {
    if n == 0 then i == j
    else exists k: nat :: k < |nodes| && nodes[i].parentSpanId == Some(nodes[k].spanId) && Above(nodes, k, j, n - 1)
  }

  ghost predicate Below(nodes: seq<IndexNode>, j: nat, i: nat)
    requires i < |nodes| && j < |nodes|
  {
    exists n: nat :: n >= 1 && Above(nodes, j, i, n)
  }

  /** The numbers 0 to 2n - 1 each belong to one node, in walking order, and intervals nest exactly along kept pointers. */
  ghost predicate NumbersNest(nodes: seq<IndexNode>) {
    && (forall i :: 0 <= i < |nodes| ==> 0 <= nodes[i].subtreeStart < nodes[i].subtreeEnd < 2 * |nodes|)
    && (forall k :: 0 <= k < 2 * |nodes| ==> UsedAt(nodes, k))
    && (forall i, j :: 0 <= i < j < |nodes| ==> nodes[i].subtreeStart < nodes[j].subtreeStart)
    && (forall i: nat, j: nat :: i < |nodes| && j < |nodes| ==>
          (Below(nodes, j, i) <==> nodes[i].subtreeStart < nodes[j].subtreeStart && nodes[j].subtreeEnd < nodes[i].subtreeEnd))
  }

  /** Depth, root and number of descendants are counted along kept pointers. */
  ghost predicate Counted(nodes: seq<IndexNode>, i: nat)
    requires i < |nodes|
  {
    && nodes[i].depth >= 0
    && (exists root: nat :: root < |nodes| && RootIs(nodes, i, root))
    && nodes[i].descendantCount == |SpansBelow(nodes, i)|
  }

  ghost predicate RootIs(nodes: seq<IndexNode>, i: nat, root: nat)
    requires i < |nodes| && root < |nodes| && nodes[i].depth >= 0
  {
    && Above(nodes, i, root, nodes[i].depth) && nodes[root].parentSpanId == None
    && nodes[i].rootSpanId == nodes[root].spanId
    && nodes[i].rootRunId == if nodes[root].runId == "" then nodes[root].generatedRunId else nodes[root].runId
  }

  ghost function SpansBelow(nodes: seq<IndexNode>, i: nat): set<SpanId>
    requires i < |nodes|
  {
    set j: nat | j < |nodes| && Below(nodes, j, i) :: nodes[j].spanId
  }

  /** Earlier in time, or at the same time and earlier in the dictionary. */
  ghost predicate Earlier(a: RunInput, b: RunInput) {
    a.startTime < b.startTime || (a.startTime == b.startTime && Ordering.InDictionaryOrder(a.spanId, b.spanId))
  }

  /** Siblings are numbered without gaps from 0 in time order. */
  ghost predicate SiblingsCounted(runs: seq<RunInput>, nodes: seq<IndexNode>) {
    && (forall i: nat :: i < |nodes| ==> SiblingPlaced(nodes, i))
    && forall i: nat, j: nat, a: nat, b: nat :: i < |nodes| && j < |nodes| && a < |runs| && b < |runs| ==>
         PairOrdered(runs, nodes, i, j, a, b)
  }

  ghost predicate SiblingPlaced(nodes: seq<IndexNode>, i: nat)
    requires i < |nodes|
  {
    && nodes[i].siblingOrder >= 0
    && (nodes[i].siblingOrder > 0 ==> HasSibling(nodes, nodes[i].parentSpanId, nodes[i].siblingOrder - 1))
  }

  ghost predicate PairOrdered(runs: seq<RunInput>, nodes: seq<IndexNode>, i: nat, j: nat, a: nat, b: nat)
    requires i < |nodes| && j < |nodes| && a < |runs| && b < |runs|
  {
    i != j && nodes[i].parentSpanId == nodes[j].parentSpanId
    && runs[a].spanId == nodes[i].spanId && runs[b].spanId == nodes[j].spanId ==>
      (nodes[i].siblingOrder < nodes[j].siblingOrder <==> Earlier(runs[a], runs[b]))
  }

  ghost predicate HasSibling(nodes: seq<IndexNode>, parent: Option<SpanId>, order: int) {
    exists j :: 0 <= j < |nodes| && nodes[j].parentSpanId == parent && nodes[j].siblingOrder == order
  }

  /** What the index of the runs is, in the terms of the runs alone. */
  ghost predicate IndexOf(runs: seq<RunInput>, nodes: seq<IndexNode>) {
    && EveryRunOnce(runs, nodes) && NumbersNest(nodes) && SiblingsCounted(runs, nodes)
    && forall i: nat :: i < |nodes| ==> Counted(nodes, i)
  }

  // ---- the built index is that ----

  lemma {:induction false} KnownIs(runs: seq<RunInput>, x: SpanId)
    requires DistinctSpans(runs)
    ensures Known(runs, x) <==> x in ParentsOf(runs)
    ensures forall y :: Points(runs, x, y) <==> x in ParentsOf(runs) && ParentsOf(runs)[x] == Some(y)
  {
    ParentsOfRuns(runs);
    hide ParentsOf, DistinctSpans;
    if k :| 0 <= k < |runs| && runs[k].spanId == x {
      assert HasRun(runs, x, runs[k].parentSpanId);
    }
    if x in ParentsOf(runs) {
      assert HasRun(runs, x, ParentsOf(runs)[x]);
    }
    forall y
      ensures Points(runs, x, y) <==> HasRun(runs, x, Some(y))
    {
    }
  }

  lemma {:induction false} FirstStep(parents: Parents, x: SpanId, y: SpanId, n: nat)
    requires n >= 1
    ensures UpIs(parents, x, n, y) <==> x in parents && parents[x].Some? && UpIs(parents, parents[x].value, n - 1, y)
  {
    assert Up(parents, x, 0) == Some(x);
    assert Up(parents, x, 1) == if x in parents then parents[x] else None;
    if x in parents && parents[x].Some? {
      assert UpIs(parents, x, 1, parents[x].value);
      UpAdd(parents, x, parents[x].value, 1, n - 1);
    } else {
      UpEnds(parents, x, 1, n);
    }
  }

  lemma {:induction false} ClimbIsUp(runs: seq<RunInput>, x: SpanId, y: SpanId, n: nat)
    requires DistinctSpans(runs)
    ensures Climbs(runs, x, y, n) <==> UpIs(ParentsOf(runs), x, n, y)
    decreases n
  {
    var parents := ParentsOf(runs);
    if n == 0 {
      assert Up(parents, x, 0) == Some(x);
    } else {
      KnownIs(runs, x);
      FirstStep(parents, x, y, n);
      hide ParentsOf, DistinctSpans, Points, UpIs;
      if z :| Points(runs, x, z) && Climbs(runs, z, y, n - 1) {
        ClimbIsUp(runs, z, y, n - 1);
      }
      if x in parents && parents[x].Some? {
        ClimbIsUp(runs, parents[x].value, y, n - 1);
      }
    }
  }

  lemma {:induction false} LoopsIs(runs: seq<RunInput>, x: SpanId)
    requires DistinctSpans(runs)
    ensures Loops(runs, x) <==> OnCycle(ParentsOf(runs), x)
  {
    hide ParentsOf, DistinctSpans, Climbs, UpIs;
    forall n: nat
      ensures Climbs(runs, x, x, n) <==> UpIs(ParentsOf(runs), x, n, x)
    {
      ClimbIsUp(runs, x, x, n);
    }
  }

  lemma {:induction false} NodeRecords(runs: seq<RunInput>, inputs: Inputs, children: Children, node: IndexNode, k: nat)
    requires DistinctSpans(runs) && Sources(runs, inputs, children) && NodeCorrect(ParentsOf(runs), inputs, children, node)
    requires k < |runs| && runs[k].spanId == node.spanId
    ensures Records(runs, runs[k], node)
  {
    var parents, run := ParentsOf(runs), runs[k];
    KnownIs(runs, run.spanId);
    if run.parentSpanId.Some? {
      KnownIs(runs, run.parentSpanId.value);
    }
    LoopsIs(runs, run.spanId);
    EffectiveParentIs(parents, run.spanId);
    hide ParentsOf, EffectiveParent, EffectiveParents, Known, Loops, OnCycle, ForestOf, SiblingsOrdered, DistinctSpans, Subtree, UpIs;
    assert inputs[run.spanId].run == run;
  }

  lemma {:induction false} RunOfNode(runs: seq<RunInput>, inputs: Inputs, children: Children, node: IndexNode) returns (k: nat)
    requires DistinctSpans(runs) && Sources(runs, inputs, children) && NodeCorrect(ParentsOf(runs), inputs, children, node)
    ensures k < |runs| && runs[k].spanId == node.spanId && inputs[node.spanId].run == runs[k]
  {
    KnownIs(runs, node.spanId);
    hide ParentsOf, EffectiveParents, EffectiveParent, OnCycle, DistinctSpans, Subtree, SiblingsOrdered, UpIs;
    k :| 0 <= k < |runs| && runs[k].spanId == node.spanId;
  }

  lemma {:induction false} RunsRecorded(runs: seq<RunInput>, inputs: Inputs, children: Children, nodes: seq<IndexNode>)
    requires DistinctSpans(runs) && TreeIndex(runs, inputs, children, nodes)
    ensures EveryRunOnce(runs, nodes)
  {
    hide *;
    IndexParts(runs, inputs, children, nodes);
    forall k: nat | k < |runs|
      ensures RunRecorded(runs, k, nodes)
    {
      KnownIs(runs, runs[k].spanId);
      KnownRun(runs, k);
      var i := NodeOf(nodes, ParentsOf(runs).Keys, runs[k].spanId);
      CorrectAt(ParentsOf(runs), inputs, children, nodes, i);
      NodeRecords(runs, inputs, children, nodes[i], k);
      NowRecorded(runs, k, nodes, i);
    }
    forall i: nat | i < |nodes|
      ensures NodeRecorded(runs, nodes, i)
    {
      CorrectAt(ParentsOf(runs), inputs, children, nodes, i);
      var k := RunOfNode(runs, inputs, children, nodes[i]);
      NodeRecords(runs, inputs, children, nodes[i], k);
      NowRecorded(runs, k, nodes, i);
    }
    AllRecorded(runs, nodes);
  }

  lemma {:induction false} NowRecorded(runs: seq<RunInput>, k: nat, nodes: seq<IndexNode>, i: nat)
    requires k < |runs| && i < |nodes| && Records(runs, runs[k], nodes[i])
    ensures RunRecorded(runs, k, nodes) && NodeRecorded(runs, nodes, i)
  {
    hide Records;
  }

  lemma {:induction false} AllRecorded(runs: seq<RunInput>, nodes: seq<IndexNode>)
    requires |nodes| == |runs|
    requires forall k: nat :: k < |runs| ==> RunRecorded(runs, k, nodes)
    requires forall i: nat :: i < |nodes| ==> NodeRecorded(runs, nodes, i)
    ensures EveryRunOnce(runs, nodes)
  {
    hide RunRecorded, NodeRecorded;
  }

  lemma {:induction false} KnownRun(runs: seq<RunInput>, k: nat)
    requires k < |runs|
    ensures Known(runs, runs[k].spanId)
  {
  }

  lemma {:induction false} IndexParts(runs: seq<RunInput>, inputs: Inputs, children: Children, nodes: seq<IndexNode>)
    requires TreeIndex(runs, inputs, children, nodes)
    ensures |nodes| == |runs| && Lists(nodes, ParentsOf(runs).Keys) && Numbering(nodes, 0, 2 * |nodes|)
    ensures NestedSets(EffectiveParents(ParentsOf(runs)), nodes) && Ordering.Sorted(nodes, StartLeq)
    ensures Sources(runs, inputs, children) && AllCorrect(ParentsOf(runs), inputs, children, nodes)
  {
    hide ParentsOf, EffectiveParents, Lists, Numbering, NestedSets, Sources, AllCorrect, Ordering.Sorted;
  }

  lemma {:induction false} NodeOf(nodes: seq<IndexNode>, members: set<SpanId>, x: SpanId) returns (i: nat)
    requires Lists(nodes, members) && x in members
    ensures i < |nodes| && nodes[i].spanId == x
  {
    assert HasNode(nodes, x);
    i :| 0 <= i < |nodes| && nodes[i].spanId == x;
  }

  lemma {:induction false} CorrectAt(parents: Parents, inputs: Inputs, children: Children, nodes: seq<IndexNode>, i: nat)
    requires AllCorrect(parents, inputs, children, nodes) && i < |nodes|
    ensures NodeCorrect(parents, inputs, children, nodes[i])
  {
    hide NodeCorrect;
  }

  /** What a correct node says of the forest it belongs to. */
  lemma {:induction false} NodeFacts(parents: Parents, inputs: Inputs, children: Children, node: IndexNode)
    requires NodeCorrect(parents, inputs, children, node)
    ensures node.spanId in parents && node.depth >= 0 && UpIs(EffectiveParents(parents), node.spanId, node.depth, node.rootSpanId)
    ensures node.spanId in EffectiveParents(parents) && EffectiveParents(parents)[node.spanId] == node.parentSpanId
    ensures node.rootSpanId in EffectiveParents(parents) && EffectiveParents(parents)[node.rootSpanId] == None
    ensures node.spanId in inputs && node.rootSpanId in inputs && node.rootRunId == StableRunId(inputs[node.rootSpanId].run)
    ensures node.runId == inputs[node.spanId].run.runId && node.generatedRunId == inputs[node.spanId].run.generatedRunId
    ensures node.descendantCount + 1 == |Subtree(EffectiveParents(parents), node.spanId)|
  {
    hide EffectiveParent, Subtree, UpIs, OnCycle;
  }

  lemma {:induction false} NodePlace(parents: Parents, inputs: Inputs, children: Children, node: IndexNode)
    requires NodeCorrect(parents, inputs, children, node)
    ensures node.parentSpanId in children && 0 <= node.siblingOrder < |children[node.parentSpanId]|
    ensures children[node.parentSpanId][node.siblingOrder] == node.spanId
  {
    hide EffectiveParent, EffectiveParents, Subtree, UpIs, OnCycle, InputOf;
  }

  /** Nodes listing the spans of a forest with their pointers in it. */
  ghost predicate Mirrors(e: Parents, nodes: seq<IndexNode>) {
    && DistinctNodes(nodes)
    && (forall x :: x in e ==> HasNode(nodes, x))
    && (forall i :: 0 <= i < |nodes| ==> nodes[i].spanId in e && e[nodes[i].spanId] == nodes[i].parentSpanId)
    && (forall x :: x in e && e[x].Some? ==> e[x].value in e)
  }

  lemma {:induction false} IndexMirrors(runs: seq<RunInput>, inputs: Inputs, children: Children, nodes: seq<IndexNode>)
    requires TreeIndex(runs, inputs, children, nodes)
    ensures Mirrors(EffectiveParents(ParentsOf(runs)), nodes)
  {
    hide *;
    var e := EffectiveParents(ParentsOf(runs));
    EffectiveParentsAcyclic(ParentsOf(runs));
    IndexParts(runs, inputs, children, nodes);
    forall i | 0 <= i < |nodes|
      ensures nodes[i].spanId in e && e[nodes[i].spanId] == nodes[i].parentSpanId
    {
      CorrectAt(ParentsOf(runs), inputs, children, nodes, i);
      NodeFacts(ParentsOf(runs), inputs, children, nodes[i]);
    }
    NowMirrors(e, nodes);
  }

  lemma {:induction false} NowMirrors(e: Parents, nodes: seq<IndexNode>)
    requires Lists(nodes, e.Keys) && forall x :: x in e && e[x].Some? ==> e[x].value in e
    requires forall i :: 0 <= i < |nodes| ==> nodes[i].spanId in e && e[nodes[i].spanId] == nodes[i].parentSpanId
    ensures Mirrors(e, nodes)
  {
  }

  lemma {:induction false} SpanDecides(e: Parents, nodes: seq<IndexNode>, i: nat, j: nat)
    requires Mirrors(e, nodes) && i < |nodes| && j < |nodes|
    ensures nodes[i].spanId == nodes[j].spanId <==> i == j
  {
    hide HasNode;
    assert i < j ==> nodes[i].spanId != nodes[j].spanId;
    assert j < i ==> nodes[i].spanId != nodes[j].spanId;
  }

  lemma {:induction false} MirrorStep(e: Parents, nodes: seq<IndexNode>, i: nat) returns (k: nat)
    requires Mirrors(e, nodes) && i < |nodes|
    ensures nodes[i].spanId in e && e[nodes[i].spanId] == nodes[i].parentSpanId
    ensures nodes[i].parentSpanId.Some? ==> k < |nodes| && nodes[i].parentSpanId == Some(nodes[k].spanId)
  {
    k := 0;
    var p := nodes[i].parentSpanId;
    hide DistinctNodes;
    if p.Some? {
      assert HasNode(nodes, p.value);
      k :| 0 <= k < |nodes| && nodes[k].spanId == p.value;
    }
  }

  lemma {:induction false} AboveIsUp(e: Parents, nodes: seq<IndexNode>, i: nat, j: nat, n: nat)
    requires Mirrors(e, nodes) && i < |nodes| && j < |nodes|
    ensures Above(nodes, i, j, n) <==> UpIs(e, nodes[i].spanId, n, nodes[j].spanId)
    decreases n
  {
    hide *;
    var x, y := nodes[i].spanId, nodes[j].spanId;
    SpanDecides(e, nodes, i, j);
    var k := MirrorStep(e, nodes, i);
    if n == 0 {
      NoStep(e, nodes, i, j);
    } else {
      FirstStep(e, x, y, n);
      AboveStep(e, nodes, i, j, k, n);
      if nodes[i].parentSpanId.Some? {
        AboveIsUp(e, nodes, k, j, n - 1);
      }
    }
  }

  lemma {:induction false} NoStep(e: Parents, nodes: seq<IndexNode>, i: nat, j: nat)
    requires i < |nodes| && j < |nodes|
    ensures Above(nodes, i, j, 0) <==> i == j
    ensures UpIs(e, nodes[i].spanId, 0, nodes[j].spanId) <==> nodes[i].spanId == nodes[j].spanId
  {
  }

  lemma {:induction false} AboveStep(e: Parents, nodes: seq<IndexNode>, i: nat, j: nat, k: nat, n: nat)
    requires Mirrors(e, nodes) && i < |nodes| && j < |nodes| && n > 0
    requires nodes[i].parentSpanId.Some? ==> k < |nodes| && nodes[i].parentSpanId == Some(nodes[k].spanId)
    ensures nodes[i].parentSpanId.None? ==> !Above(nodes, i, j, n)
    ensures nodes[i].parentSpanId.Some? ==> (Above(nodes, i, j, n) <==> Above(nodes, k, j, n - 1))
  {
    hide Mirrors;
    if l: nat :| l < |nodes| && nodes[i].parentSpanId == Some(nodes[l].spanId) && Above(nodes, l, j, n - 1) {
      SpanDecides(e, nodes, l, k);
    }
  }

  lemma {:induction false} BelowIs(e: Parents, nodes: seq<IndexNode>, j: nat, i: nat)
    requires Mirrors(e, nodes) && i < |nodes| && j < |nodes|
    ensures Below(nodes, j, i) <==> ProperDescendant(e, nodes[j].spanId, nodes[i].spanId)
  {
    hide Mirrors, Above, UpIs;
    forall n: nat
      ensures Above(nodes, j, i, n) <==> UpIs(e, nodes[j].spanId, n, nodes[i].spanId)
    {
      AboveIsUp(e, nodes, j, i, n);
    }
  }

  lemma {:induction false} StartsAscend(nodes: seq<IndexNode>, lo: int, hi: int)
    requires Ordering.Sorted(nodes, StartLeq) && Numbering(nodes, lo, hi)
    ensures forall i, j :: 0 <= i < j < |nodes| ==> nodes[i].subtreeStart < nodes[j].subtreeStart
  {
    hide UsedAt;
    forall i, j | 0 <= i < j < |nodes|
      ensures nodes[i].subtreeStart < nodes[j].subtreeStart
    {
      assert StartLeq(nodes[i], nodes[j]);
    }
  }

  lemma {:induction false} IndexNests(runs: seq<RunInput>, inputs: Inputs, children: Children, nodes: seq<IndexNode>)
    requires TreeIndex(runs, inputs, children, nodes)
    ensures NumbersNest(nodes)
  {
    hide *;
    var e := EffectiveParents(ParentsOf(runs));
    IndexMirrors(runs, inputs, children, nodes);
    IndexParts(runs, inputs, children, nodes);
    StartsAscend(nodes, 0, 2 * |nodes|);
    forall i: nat, j: nat | i < |nodes| && j < |nodes|
      ensures Below(nodes, j, i) <==> nodes[i].subtreeStart < nodes[j].subtreeStart && nodes[j].subtreeEnd < nodes[i].subtreeEnd
    {
      BelowIs(e, nodes, j, i);
      NestedPair(e, nodes, i, j);
    }
    NowNested(nodes);
  }

  lemma {:induction false} NestedPair(e: Parents, nodes: seq<IndexNode>, i: nat, j: nat)
    requires NestedSets(e, nodes) && i < |nodes| && j < |nodes|
    ensures ProperDescendant(e, nodes[j].spanId, nodes[i].spanId) <==>
            nodes[i].subtreeStart < nodes[j].subtreeStart && nodes[j].subtreeEnd < nodes[i].subtreeEnd
  {
    hide ProperDescendant;
  }

  lemma {:induction false} NowNested(nodes: seq<IndexNode>)
    requires Numbering(nodes, 0, 2 * |nodes|)
    requires forall i, j :: 0 <= i < j < |nodes| ==> nodes[i].subtreeStart < nodes[j].subtreeStart
    requires forall i: nat, j: nat :: i < |nodes| && j < |nodes| ==>
      (Below(nodes, j, i) <==> nodes[i].subtreeStart < nodes[j].subtreeStart && nodes[j].subtreeEnd < nodes[i].subtreeEnd)
    ensures NumbersNest(nodes)
  {
    hide Below, UsedAt;
  }

  /** The spans below a node are its subtree without itself. */
  lemma {:induction false} DescendantsAre(e: Parents, nodes: seq<IndexNode>, i: nat)
    requires Mirrors(e, nodes) && Acyclic(e) && i < |nodes|
    ensures var x := nodes[i].spanId; Subtree(e, x) == SpansBelow(nodes, i) + {x} && x !in SpansBelow(nodes, i)
  {
    var x := nodes[i].spanId;
    var below := SpansBelow(nodes, i);
    assert !OnCycle(e, x);
    ReachesUnfold(e, x, x);
    hide Reaches, ProperDescendant, Below;
    forall y
      ensures y in below <==> y in e && ProperDescendant(e, y, x)
    {
      if y in e {
        assert HasNode(nodes, y);
        var j :| 0 <= j < |nodes| && nodes[j].spanId == y;
        BelowIs(e, nodes, j, i);
      }
      if y in below {
        var j: nat :| j < |nodes| && nodes[j].spanId == y && Below(nodes, j, i);
        BelowIs(e, nodes, j, i);
      }
    }
    forall y
      ensures y in Subtree(e, x) <==> y in below || y == x
    {
      ReachesUnfold(e, y, x);
    }
  }

  lemma {:induction false} NodeCounted(runs: seq<RunInput>, inputs: Inputs, children: Children, nodes: seq<IndexNode>, i: nat)
    requires TreeIndex(runs, inputs, children, nodes) && i < |nodes|
    ensures Counted(nodes, i)
  {
    hide *;
    var e := EffectiveParents(ParentsOf(runs));
    IndexMirrors(runs, inputs, children, nodes);
    IndexParts(runs, inputs, children, nodes);
    EffectiveParentsAcyclic(ParentsOf(runs));
    DescendantsAre(e, nodes, i);
    var root := RootCounted(runs, inputs, children, nodes, i);
    CorrectAt(ParentsOf(runs), inputs, children, nodes, i);
    NodeFacts(ParentsOf(runs), inputs, children, nodes[i]);
    assert |Subtree(e, nodes[i].spanId)| == |SpansBelow(nodes, i)| + 1;
    NowCounted(nodes, i, root);
  }

  lemma {:induction false} NowCounted(nodes: seq<IndexNode>, i: nat, root: nat)
    requires i < |nodes| && root < |nodes| && nodes[i].depth >= 0 && RootIs(nodes, i, root)
    requires nodes[i].descendantCount == |SpansBelow(nodes, i)|
    ensures Counted(nodes, i)
  {
    hide RootIs, SpansBelow;
  }

  lemma {:induction false} RootCounted(runs: seq<RunInput>, inputs: Inputs, children: Children, nodes: seq<IndexNode>, i: nat)
    returns (root: nat)
    requires TreeIndex(runs, inputs, children, nodes) && i < |nodes|
    ensures nodes[i].depth >= 0 && root < |nodes| && RootIs(nodes, i, root)
  {
    hide *;
    var parents, node := ParentsOf(runs), nodes[i];
    IndexMirrors(runs, inputs, children, nodes);
    IndexParts(runs, inputs, children, nodes);
    EffectiveParentsAcyclic(parents);
    CorrectAt(parents, inputs, children, nodes, i);
    NodeFacts(parents, inputs, children, node);
    root := NodeOf(nodes, parents.Keys, node.rootSpanId);
    CorrectAt(parents, inputs, children, nodes, root);
    NodeFacts(parents, inputs, children, nodes[root]);
    AboveIsUp(EffectiveParents(parents), nodes, i, root, node.depth);
    NowRoot(inputs, nodes, i, root);
  }

  lemma {:induction false} NowRoot(inputs: Inputs, nodes: seq<IndexNode>, i: nat, root: nat)
    requires i < |nodes| && root < |nodes| && nodes[i].depth >= 0 && Above(nodes, i, root, nodes[i].depth)
    requires nodes[root].parentSpanId == None && nodes[i].rootSpanId == nodes[root].spanId && nodes[root].spanId in inputs
    requires nodes[i].rootRunId == StableRunId(inputs[nodes[root].spanId].run)
    requires nodes[root].runId == inputs[nodes[root].spanId].run.runId
    requires nodes[root].generatedRunId == inputs[nodes[root].spanId].run.generatedRunId
    ensures RootIs(nodes, i, root)
  {
    hide Above;
  }

  lemma {:induction false} EarlierIs(a: RunInput, b: RunInput)
    ensures RunLeq(a, b) <==> Earlier(a, b)
  {
    Ordering.StringLeqIsDictionary(a.spanId, b.spanId);
    hide Ordering.InDictionaryOrder;
  }

  lemma {:induction false} NotBoth(a: RunInput, b: RunInput)
    requires RunLeq(a, b) && RunLeq(b, a)
    ensures a.spanId == b.spanId
  {
    Ordering.StringLeqTotal(a.spanId, b.spanId);
  }

  lemma {:induction false} SiblingPair(
    runs: seq<RunInput>, inputs: Inputs, children: Children, a: IndexNode, b: IndexNode, k: nat, l: nat)
    requires Sources(runs, inputs, children) && k < |runs| && l < |runs|
    requires NodeCorrect(ParentsOf(runs), inputs, children, a) && NodeCorrect(ParentsOf(runs), inputs, children, b)
    requires a.parentSpanId == b.parentSpanId && a.spanId != b.spanId && runs[k].spanId == a.spanId && runs[l].spanId == b.spanId
    ensures a.siblingOrder < b.siblingOrder <==> Earlier(runs[k], runs[l])
  {
    hide *;
    EarlierIs(runs[k], runs[l]);
    NodePlace(ParentsOf(runs), inputs, children, a);
    NodePlace(ParentsOf(runs), inputs, children, b);
    SourceOf(runs, inputs, children, k);
    SourceOf(runs, inputs, children, l);
    if a.siblingOrder < b.siblingOrder {
      ListedBefore(runs, inputs, children, a.parentSpanId, a.siblingOrder, b.siblingOrder);
    } else {
      ListedBefore(runs, inputs, children, a.parentSpanId, b.siblingOrder, a.siblingOrder);
      if RunLeq(runs[k], runs[l]) {
        NotBoth(runs[k], runs[l]);
      }
    }
  }

  lemma {:induction false} SourceOf(runs: seq<RunInput>, inputs: Inputs, children: Children, k: nat)
    requires Sources(runs, inputs, children) && k < |runs|
    ensures runs[k].spanId in inputs && inputs[runs[k].spanId].run == runs[k]
  {
    hide ForestOf, SiblingsOrdered, ParentsOf;
  }

  lemma {:induction false} ListedBefore(runs: seq<RunInput>, inputs: Inputs, children: Children, p: Option<SpanId>, i: nat, j: nat)
    requires Sources(runs, inputs, children) && p in children && i < j < |children[p]|
    ensures children[p][i] in inputs && children[p][j] in inputs && RunLeq(inputs[children[p][i]].run, inputs[children[p][j]].run)
  {
    hide ForestOf, ParentsOf, RunLeq;
  }

  /** The sibling listed one place before. */
  lemma {:induction false} SiblingBefore(runs: seq<RunInput>, inputs: Inputs, children: Children, nodes: seq<IndexNode>, i: nat)
    requires TreeIndex(runs, inputs, children, nodes) && i < |nodes|
    ensures nodes[i].siblingOrder >= 0
    ensures nodes[i].siblingOrder > 0 ==> HasSibling(nodes, nodes[i].parentSpanId, nodes[i].siblingOrder - 1)
  {
    hide *;
    var parents, node := ParentsOf(runs), nodes[i];
    IndexParts(runs, inputs, children, nodes);
    CorrectAt(parents, inputs, children, nodes, i);
    NodePlace(parents, inputs, children, node);
    if node.siblingOrder > 0 {
      var order := node.siblingOrder - 1;
      var x := ListedChild(runs, inputs, children, node.parentSpanId, order);
      var j := NodeOf(nodes, parents.Keys, x);
      CorrectAt(parents, inputs, children, nodes, j);
      NodeFacts(parents, inputs, children, nodes[j]);
      NodePlace(parents, inputs, children, nodes[j]);
      ListedOnce(runs, inputs, children, node.parentSpanId, order, nodes[j].siblingOrder);
      NowSibling(nodes, node.parentSpanId, order, j);
    }
  }

  lemma {:induction false} NowSibling(nodes: seq<IndexNode>, parent: Option<SpanId>, order: int, j: nat)
    requires j < |nodes| && nodes[j].parentSpanId == parent && nodes[j].siblingOrder == order
    ensures HasSibling(nodes, parent, order)
  {
  }

  lemma {:induction false} ListedChild(runs: seq<RunInput>, inputs: Inputs, children: Children, p: Option<SpanId>, i: nat) returns (x: SpanId)
    requires Sources(runs, inputs, children) && p in children && i < |children[p]|
    ensures x == children[p][i] && x in ParentsOf(runs) && x in EffectiveParents(ParentsOf(runs))
    ensures EffectiveParents(ParentsOf(runs))[x] == p
  {
    x := children[p][i];
    hide ParentsOf, EffectiveParent, SiblingsOrdered, InputOf;
  }

  lemma {:induction false} ListedOnce(runs: seq<RunInput>, inputs: Inputs, children: Children, p: Option<SpanId>, i: nat, j: nat)
    requires Sources(runs, inputs, children) && p in children && i < |children[p]| && j < |children[p]|
    requires children[p][i] == children[p][j]
    ensures i == j
  {
    hide ParentsOf, EffectiveParent, SiblingsOrdered, InputOf;
  }

  lemma {:induction false} AllSiblings(runs: seq<RunInput>, inputs: Inputs, children: Children, nodes: seq<IndexNode>)
    requires TreeIndex(runs, inputs, children, nodes)
    ensures SiblingsCounted(runs, nodes)
  {
    hide *;
    IndexMirrors(runs, inputs, children, nodes);
    IndexParts(runs, inputs, children, nodes);
    forall i: nat | i < |nodes|
      ensures SiblingPlaced(nodes, i)
    {
      SiblingBefore(runs, inputs, children, nodes, i);
      NowPlaced(nodes, i);
    }
    forall i: nat, j: nat, a: nat, b: nat | i < |nodes| && j < |nodes| && a < |runs| && b < |runs|
      ensures PairOrdered(runs, nodes, i, j, a, b)
    {
      if i != j && nodes[i].parentSpanId == nodes[j].parentSpanId
         && runs[a].spanId == nodes[i].spanId && runs[b].spanId == nodes[j].spanId {
        SpanDecides(EffectiveParents(ParentsOf(runs)), nodes, i, j);
        CorrectAt(ParentsOf(runs), inputs, children, nodes, i);
        CorrectAt(ParentsOf(runs), inputs, children, nodes, j);
        SiblingPair(runs, inputs, children, nodes[i], nodes[j], a, b);
      }
      NowOrdered(runs, nodes, i, j, a, b);
    }
    AllPlaced(runs, nodes);
  }

  lemma {:induction false} NowPlaced(nodes: seq<IndexNode>, i: nat)
    requires i < |nodes| && nodes[i].siblingOrder >= 0
    requires nodes[i].siblingOrder > 0 ==> HasSibling(nodes, nodes[i].parentSpanId, nodes[i].siblingOrder - 1)
    ensures SiblingPlaced(nodes, i)
  {
    hide HasSibling;
  }

  lemma {:induction false} NowOrdered(runs: seq<RunInput>, nodes: seq<IndexNode>, i: nat, j: nat, a: nat, b: nat)
    requires i < |nodes| && j < |nodes| && a < |runs| && b < |runs|
    requires (i != j && nodes[i].parentSpanId == nodes[j].parentSpanId
              && runs[a].spanId == nodes[i].spanId && runs[b].spanId == nodes[j].spanId) ==>
      (nodes[i].siblingOrder < nodes[j].siblingOrder <==> Earlier(runs[a], runs[b]))
    ensures PairOrdered(runs, nodes, i, j, a, b)
  {
    hide Earlier;
  }

  lemma {:induction false} AllPlaced(runs: seq<RunInput>, nodes: seq<IndexNode>)
    requires forall i: nat :: i < |nodes| ==> SiblingPlaced(nodes, i)
    requires forall i: nat, j: nat, a: nat, b: nat :: i < |nodes| && j < |nodes| && a < |runs| && b < |runs| ==>
      PairOrdered(runs, nodes, i, j, a, b)
    ensures SiblingsCounted(runs, nodes)
  {
    hide SiblingPlaced, PairOrdered;
  }

  lemma {:induction false} NowIndexOf(runs: seq<RunInput>, inputs: Inputs, children: Children, nodes: seq<IndexNode>)
    requires DistinctSpans(runs) && TreeIndex(runs, inputs, children, nodes)
    ensures IndexOf(runs, nodes)
  {
    hide *;
    RunsRecorded(runs, inputs, children, nodes);
    IndexNests(runs, inputs, children, nodes);
    AllSiblings(runs, inputs, children, nodes);
    forall i: nat | i < |nodes|
      ensures Counted(nodes, i)
    {
      NodeCounted(runs, inputs, children, nodes, i);
    }
    AllOfIndex(runs, nodes);
  }

  lemma {:induction false} AllOfIndex(runs: seq<RunInput>, nodes: seq<IndexNode>)
    requires EveryRunOnce(runs, nodes) && NumbersNest(nodes) && SiblingsCounted(runs, nodes)
    requires forall i: nat :: i < |nodes| ==> Counted(nodes, i)
    ensures IndexOf(runs, nodes)
  {
    hide EveryRunOnce, NumbersNest, SiblingsCounted, Counted;
  }

  // ---- building ----

  lemma {:induction false} SortedRunsAgree(runs: seq<RunInput>, sorted: seq<RunInput>)
    requires DistinctSpans(runs) && multiset(runs) == multiset(sorted)
    ensures DistinctSpans(sorted) && ParentsOf(sorted) == ParentsOf(runs)
    ensures |ParentsOf(runs)| == |runs|
    ensures forall i :: 0 <= i < |runs| ==> runs[i] in sorted
  {
    Ordering.PermutationKeeps(runs, sorted, (run: RunInput) => run.spanId);
    ParentsOfRuns(runs);
    ParentsOfRuns(sorted);
    forall x, parent
      ensures HasRun(runs, x, parent) <==> HasRun(sorted, x, parent)
    {
      if HasRun(runs, x, parent) {
        var i :| 0 <= i < |runs| && runs[i].spanId == x && runs[i].parentSpanId == parent;
        assert runs[i] in sorted;
      }
      if HasRun(sorted, x, parent) {
        var i :| 0 <= i < |sorted| && sorted[i].spanId == x && sorted[i].parentSpanId == parent;
        assert sorted[i] in runs;
      }
    }
    forall x
      ensures x in ParentsOf(runs) <==> x in ParentsOf(sorted)
      ensures x in ParentsOf(runs) ==> ParentsOf(runs)[x] == ParentsOf(sorted)[x]
    {
      if x in ParentsOf(runs) {
        assert HasRun(runs, x, ParentsOf(runs)[x]);
      }
      if x in ParentsOf(sorted) {
        assert HasRun(sorted, x, ParentsOf(sorted)[x]);
      }
    }
  }

  /** Reordering the nodes keeps every promise about them. */
  lemma {:induction false} BlockPermuted(e: Parents, a: seq<IndexNode>, b: seq<IndexNode>, members: set<SpanId>, lo: int, hi: int)
    requires Block(e, a, members, lo, hi) && multiset(a) == multiset(b)
    ensures Block(e, b, members, lo, hi)
    ensures |a| == |b| && forall i :: 0 <= i < |b| ==> b[i] in a
  {
    Ordering.PermutationKeeps(a, b, (node: IndexNode) => node.spanId);
    forall x
      ensures HasNode(a, x) <==> HasNode(b, x)
    {
      if HasNode(a, x) {
        var i :| 0 <= i < |a| && a[i].spanId == x;
        assert a[i] in b;
      }
      if HasNode(b, x) {
        var i :| 0 <= i < |b| && b[i].spanId == x;
        assert b[i] in a;
      }
    }
    NumberingPermuted(a, b, lo, hi);
    forall i, j | 0 <= i < |b| && 0 <= j < |b|
      ensures ProperDescendant(e, b[j].spanId, b[i].spanId) <==> StrictlyInside(b[j], b[i])
    {
      assert b[i] in a && b[j] in a;
    }
  }

  lemma {:induction false} NumberingPermuted(a: seq<IndexNode>, b: seq<IndexNode>, lo: int, hi: int)
    requires Numbering(a, lo, hi) && |a| == |b| && DistinctNodes(b)
    requires forall x :: x in a <==> x in b
    ensures Numbering(b, lo, hi)
  {
    forall k | lo <= k < hi
      ensures UsedAt(b, k)
    {
      assert UsedAt(a, k);
      var i :| 0 <= i < |a| && (a[i].subtreeStart == k || a[i].subtreeEnd == k);
      assert a[i] in b;
    }
    forall i, j | 0 <= i < j < |b|
      ensures b[i].subtreeStart != b[j].subtreeStart && b[i].subtreeStart != b[j].subtreeEnd
      ensures b[i].subtreeEnd != b[j].subtreeStart && b[i].subtreeEnd != b[j].subtreeEnd
    {
      assert b[i] in a && b[j] in a;
      var k :| 0 <= k < |a| && a[k] == b[i];
      var l :| 0 <= l < |a| && a[l] == b[j];
      assert k != l;
    }
    forall i | 0 <= i < |b|
      ensures lo <= b[i].subtreeStart < b[i].subtreeEnd < hi
    {
      assert b[i] in a;
    }
  }

  /**
   `build_trace_tree_index` on arbitrary parent pointers: every span is listed once, flagged and
   numbered from 0 to 2n - 1 so that the planner's interval tests are the ancestor relation.
   */
  method BuildTraceTreeIndex(runs: seq<RunInput>) returns (nodes: seq<IndexNode>)
    requires DistinctSpans(runs)
    ensures Block(EffectiveParents(ParentsOf(runs)), nodes, ParentsOf(runs).Keys, 0, 2 * |runs|)
    ensures IndexOf(runs, nodes) && PlannerTestsExact(runs, nodes)
    ensures Ordering.Sorted(nodes, StartLeq) && DescribedBySomeForest(runs, nodes)
  {
    hide *;
    var sorted := Ordering.SortBy(runs, RunLeq);
    RunLeqIsTotal();
    Ordering.SortByCorrect(runs, RunLeq);
    SortedRunsAgree(runs, sorted);
    var parents := ParentsOf(sorted);
    var inputsBySpan, childrenByParent := IndexInputs(sorted, parents);
    ghost var inputs, children := inputsBySpan, childrenByParent;
    var roots := if None in childrenByParent then childrenByParent[None] else [];
    var pushed: seq<IndexNode> := [];
    var next := 0;
    NoSiblingsDone(parents, inputs, children, roots, 0);
    var i := 0;
    while i < |roots|
      invariant 0 <= i <= |roots|
      invariant SiblingsDone(parents, inputs, children, roots, i, pushed, 0, next)
    {
      var root := roots[i];
      RootVisitable(parents, inputs, children, i);
      var _, after, out := VisitTreeNode(
        root, 0, i, root, StableRunId(inputsBySpan[root].run), inputsBySpan, childrenByParent, next, parents, {});
      NextSiblingDone(parents, inputs, children, None, i, pushed, out, 0, next, after);
      pushed := pushed + out;
      next := after;
      i := i + 1;
    }
    RootsCover(parents, inputs, children);
    nodes := Ordering.SortBy(pushed, StartLeq);
    StartLeqIsTotal();
    Ordering.SortByCorrect(pushed, StartLeq);
    FinishIndex(runs, sorted, inputs, children, pushed, nodes, next);
    IndexDescribed(runs, inputs, children, nodes);
    NowIndexOf(runs, inputs, children, nodes);
    PlannerTestsDecide(runs, nodes);
  }

  lemma {:induction false} IndexDescribed(runs: seq<RunInput>, inputs: Inputs, children: Children, nodes: seq<IndexNode>)
    requires TreeIndex(runs, inputs, children, nodes)
    ensures Block(EffectiveParents(ParentsOf(runs)), nodes, ParentsOf(runs).Keys, 0, 2 * |runs|)
    ensures Ordering.Sorted(nodes, StartLeq) && DescribedBySomeForest(runs, nodes)
  {
    hide Block, Sources, AllCorrect, ParentsOf, EffectiveParents;
  }

  lemma {:induction false} FinishIndex(
    runs: seq<RunInput>, sorted: seq<RunInput>, inputs: Inputs, children: Children,
    pushed: seq<IndexNode>, nodes: seq<IndexNode>, next: int)
    requires DistinctSpans(runs) && (forall i :: 0 <= i < |runs| ==> runs[i] in sorted)
    requires ForestOf(ParentsOf(runs), inputs, children) && SiblingsOrdered(inputs, children)
    requires forall i :: 0 <= i < |sorted| ==> sorted[i].spanId in inputs && inputs[sorted[i].spanId].run == sorted[i]
    requires var roots := if None in children then children[None] else [];
      && SiblingsDone(ParentsOf(runs), inputs, children, roots, |roots|, pushed, 0, next)
      && Forest(EffectiveParents(ParentsOf(runs)), roots) == ParentsOf(runs).Keys
    requires multiset(nodes) == multiset(pushed) && Ordering.Sorted(nodes, StartLeq)
    ensures TreeIndex(runs, inputs, children, nodes)
  {
    hide Block, AllCorrect, Forest, ForestOf, SiblingsOrdered, SiblingsDone, ParentsOf, EffectiveParents, Sources,
         Ordering.Sorted;
    var e := EffectiveParents(ParentsOf(runs));
    AllRootsDone(ParentsOf(runs), inputs, children, pushed, next);
    SourcesFound(runs, sorted, inputs, children);
    ParentsOfRuns(runs);
    BlockSize(e, pushed, ParentsOf(runs).Keys, 0, next);
    BlockPermuted(e, pushed, nodes, ParentsOf(runs).Keys, 0, next);
    AllCorrectPermuted(ParentsOf(runs), inputs, children, pushed, nodes);
  }

  lemma {:induction false} AllRootsDone(parents: Parents, inputs: Inputs, children: Children, pushed: seq<IndexNode>, next: int)
    requires var roots := if None in children then children[None] else [];
      && SiblingsDone(parents, inputs, children, roots, |roots|, pushed, 0, next)
      && Forest(EffectiveParents(parents), roots) == parents.Keys
    ensures Block(EffectiveParents(parents), pushed, parents.Keys, 0, next)
    ensures AllCorrect(parents, inputs, children, pushed)
  {
    hide Block, AllCorrect, Forest;
    var roots := if None in children then children[None] else [];
    assert roots[..|roots|] == roots;
  }

  lemma {:induction false} SourcesFound(runs: seq<RunInput>, sorted: seq<RunInput>, inputs: Inputs, children: Children)
    requires forall i :: 0 <= i < |runs| ==> runs[i] in sorted
    requires ForestOf(ParentsOf(runs), inputs, children) && SiblingsOrdered(inputs, children)
    requires forall i :: 0 <= i < |sorted| ==> sorted[i].spanId in inputs && inputs[sorted[i].spanId].run == sorted[i]
    ensures Sources(runs, inputs, children)
  {
    hide ForestOf, SiblingsOrdered, ParentsOf;
  }

  lemma {:induction false} AllCorrectPermuted(parents: Parents, inputs: Inputs, children: Children, a: seq<IndexNode>, b: seq<IndexNode>)
    requires AllCorrect(parents, inputs, children, a) && forall i :: 0 <= i < |b| ==> b[i] in a
    ensures AllCorrect(parents, inputs, children, b)
  {
    hide NodeCorrect;
  }

  // ---- what the planner reads off the numbers ----

  /** The descendant scope and the most-relevant mode, asked of any two nodes, answer what the parent pointers say. */
  ghost predicate PlannerTestsExact(runs: seq<RunInput>, nodes: seq<IndexNode>) {
    forall i, j :: 0 <= i < |nodes| && 0 <= j < |nodes| ==> PairDecided(EffectiveParents(ParentsOf(runs)), nodes[i], nodes[j])
  }

  ghost predicate PairDecided(e: Parents, above: IndexNode, below: IndexNode) {
    && (StrictlyInside(below, above) <==> ProperDescendant(e, below.spanId, above.spanId))
    && (Covers(above, below) <==> Reaches(e, below.spanId, above.spanId))
  }

  lemma {:induction false} PlannerTestsDecide(runs: seq<RunInput>, nodes: seq<IndexNode>)
    requires Block(EffectiveParents(ParentsOf(runs)), nodes, ParentsOf(runs).Keys, 0, 2 * |runs|)
    ensures PlannerTestsExact(runs, nodes)
  {
    hide Block, ParentsOf, EffectiveParents, StrictlyInside, Covers, ProperDescendant, Reaches;
    forall i, j | 0 <= i < |nodes| && 0 <= j < |nodes|
      ensures PairDecided(EffectiveParents(ParentsOf(runs)), nodes[i], nodes[j])
    {
      IntervalTestsDecideAncestry(runs, nodes, i, j);
    }
  }

  /** `tree_filter_predicate_sql`: the descendant scope and the most-relevant mode decide ancestry from the numbers. */
  lemma {:induction false} IntervalTestsDecideAncestry(runs: seq<RunInput>, nodes: seq<IndexNode>, i: nat, j: nat)
    requires Block(EffectiveParents(ParentsOf(runs)), nodes, ParentsOf(runs).Keys, 0, 2 * |runs|) && i < |nodes| && j < |nodes|
    ensures PairDecided(EffectiveParents(ParentsOf(runs)), nodes[i], nodes[j])
  {
    hide UsedAt, HasNode;
    var e := EffectiveParents(ParentsOf(runs));
    ReachesUnfold(e, nodes[j].spanId, nodes[i].spanId);
    if i != j {
      assert nodes[i].spanId != nodes[j].spanId;
      assert nodes[i].subtreeStart != nodes[j].subtreeStart && nodes[i].subtreeEnd != nodes[j].subtreeEnd;
    }
  }

  /** The root scope tests depth zero: exactly the spans without an effective parent, their own roots. */
  lemma {:induction false} DepthZeroIsRoot(parents: Parents, inputs: Inputs, children: Children, node: IndexNode)
    requires NodeCorrect(parents, inputs, children, node)
    ensures var e := EffectiveParents(parents);
      && (node.depth == 0 <==> node.parentSpanId == None)
      && (node.depth == 0 <==> node.rootSpanId == node.spanId)
      && (forall y :: !ProperDescendant(e, node.rootSpanId, y))
      && Up(e, node.spanId, node.depth + 1) == None
  {
    var e := EffectiveParents(parents);
    EffectiveParentsAcyclic(parents);
    assert !OnCycle(e, node.spanId);
    assert Up(e, node.spanId, 0) == Some(node.spanId);
    if node.depth > 0 {
      UpKnown(e, node.spanId, node.depth);
      if e[node.spanId] == None {
        UpEnds(e, node.spanId, 1, node.depth);
      }
    }
    forall y
      ensures !ProperDescendant(e, node.rootSpanId, y)
    {
      DescendantUnfold(e, node.rootSpanId, y);
    }
  }
}
