/**
 The trace-tree index: cycles are cut out of arbitrary parent pointers, then the forest
 is numbered as nested sets.  The planner later decides "is a descendant of" by comparing
 the numbers alone.
 */
module TraceTree {
  import opened Wrappers
  import opened ParentChains
  import Ordering

  datatype RunInput = RunInput(
    spanId: SpanId,
    parentSpanId: Option<SpanId>,
    runId: string,
    generatedRunId: string,
    startTime: int)

  datatype IndexNode = IndexNode(
    spanId: SpanId,
    runId: string,
    generatedRunId: string,
    parentSpanId: Option<SpanId>,
    rootSpanId: SpanId,
    rootRunId: string,
    depth: int,
    siblingOrder: int,
    subtreeStart: int,
    subtreeEnd: int,
    descendantCount: int,
    unresolvedParent: bool,
    cycleDetected: bool)

  datatype IndexedRun = IndexedRun(
    run: RunInput,
    effectiveParent: Option<SpanId>,
    unresolvedParent: bool,
    cycleDetected: bool)

  type Inputs = map<SpanId, IndexedRun>
  type Children = map<Option<SpanId>, seq<SpanId>>

  function StableRunId(run: RunInput): string {
    if run.runId != "" then run.runId else run.generatedRunId
  }

  predicate RunLeq(a: RunInput, b: RunInput) {
    a.startTime < b.startTime || (a.startTime == b.startTime && Ordering.StringLeq(a.spanId, b.spanId))
  }

  ghost predicate DistinctSpans(runs: seq<RunInput>) {
    Ordering.DistinctBy(runs, (run: RunInput) => run.spanId)
  }

  /** The parent pointer of every span; for a repeated span the last one wins, as in a map collected in order. */
  function ParentsOf(runs: seq<RunInput>): Parents {
    if runs == [] then map[]
    else ParentsOf(runs[..|runs| - 1])[runs[|runs| - 1].spanId := runs[|runs| - 1].parentSpanId]
  }

  ghost predicate HasRun(runs: seq<RunInput>, x: SpanId, parent: Option<SpanId>) {
    exists i :: 0 <= i < |runs| && runs[i].spanId == x && runs[i].parentSpanId == parent
  }

  lemma {:induction false} HasRunStep(runs: seq<RunInput>, x: SpanId, parent: Option<SpanId>)
    requires runs != []
    ensures var front, last := runs[..|runs| - 1], runs[|runs| - 1];
      HasRun(runs, x, parent) <==>
      HasRun(front, x, parent) || (x == last.spanId && parent == last.parentSpanId)
  {
    var front, last := runs[..|runs| - 1], runs[|runs| - 1];
    if HasRun(front, x, parent) {
      var i :| 0 <= i < |front| && front[i].spanId == x && front[i].parentSpanId == parent;
      assert runs[i] == front[i];
    }
    if HasRun(runs, x, parent) && !(x == last.spanId && parent == last.parentSpanId) {
      var i :| 0 <= i < |runs| && runs[i].spanId == x && runs[i].parentSpanId == parent;
      assert front[i] == runs[i];
    }
  }

  lemma {:induction false} ParentsOfRuns(runs: seq<RunInput>)
    requires DistinctSpans(runs)
    ensures forall x, parent :: HasRun(runs, x, parent) <==> x in ParentsOf(runs) && ParentsOf(runs)[x] == parent
    ensures |ParentsOf(runs)| == |runs|
  {
    if runs != [] {
      var front := runs[..|runs| - 1];
      var last := runs[|runs| - 1];
      ParentsOfRuns(front);
      assert forall parent :: !HasRun(front, last.spanId, parent);
      forall x | x in ParentsOf(front)
        ensures x != last.spanId
      {
        assert HasRun(front, x, ParentsOf(front)[x]);
      }
      forall x, parent
        ensures HasRun(runs, x, parent) <==>
                HasRun(front, x, parent) || (x == last.spanId && parent == last.parentSpanId)
      {
        HasRunStep(runs, x, parent);
      }
      assert ParentsOf(runs).Keys == ParentsOf(front).Keys + {last.spanId};
      assert |ParentsOf(runs).Keys| == |ParentsOf(front).Keys| + 1;
    }
  }

  /** What the first pass leaves behind: one input per span and, per effective parent, its children in order. */
  ghost predicate ForestOf(parents: Parents, inputs: Inputs, children: Children) {
    && inputs.Keys == parents.Keys
    && (forall x :: x in inputs ==> InputOf(parents, x, inputs[x]))
    && (forall p, i :: p in children && 0 <= i < |children[p]| ==>
          children[p][i] in parents && EffectiveParent(parents, children[p][i]) == p)
    && (forall p, i, j :: p in children && 0 <= i < j < |children[p]| ==> children[p][i] != children[p][j])
    && (forall x :: x in parents ==>
          EffectiveParent(parents, x) in children && x in children[EffectiveParent(parents, x)])
  }

  ghost predicate InputOf(parents: Parents, x: SpanId, input: IndexedRun) {
    && x in parents
    && input.run.spanId == x
    && input.run.parentSpanId == parents[x]
    && input.effectiveParent == EffectiveParent(parents, x)
    && (input.unresolvedParent <==> parents[x].Some? && parents[x].value !in parents)
    && (input.cycleDetected <==> OnCycle(parents, x))
  }

  // ---- what one node and one list of nodes have to say ----

  /** Everything a node records about its own span, given the forest it belongs to. */
  ghost predicate NodeCorrect(parents: Parents, inputs: Inputs, children: Children, node: IndexNode) {
    var e := EffectiveParents(parents);
    && node.spanId in inputs
    && InputOf(parents, node.spanId, inputs[node.spanId])
    && node.runId == inputs[node.spanId].run.runId
    && node.generatedRunId == inputs[node.spanId].run.generatedRunId
    && node.parentSpanId == EffectiveParent(parents, node.spanId)
    && node.unresolvedParent == inputs[node.spanId].unresolvedParent
    && node.cycleDetected == inputs[node.spanId].cycleDetected
    && node.depth >= 0
    && UpIs(e, node.spanId, node.depth, node.rootSpanId)
    && node.rootSpanId in inputs && e.Keys == inputs.Keys && e[node.rootSpanId] == None
    && node.rootRunId == StableRunId(inputs[node.rootSpanId].run)
    && node.parentSpanId in children
    && 0 <= node.siblingOrder < |children[node.parentSpanId]|
    && children[node.parentSpanId][node.siblingOrder] == node.spanId
    && node.descendantCount == (node.subtreeEnd - node.subtreeStart - 1) / 2
    && (node.subtreeEnd - node.subtreeStart) % 2 == 1
    && node.descendantCount + 1 == |Subtree(e, node.spanId)|
  }

  ghost predicate AllCorrect(parents: Parents, inputs: Inputs, children: Children, nodes: seq<IndexNode>) {
    forall i :: 0 <= i < |nodes| ==> NodeCorrect(parents, inputs, children, nodes[i])
  }

  /** The planner's descendant test. */
  predicate StrictlyInside(target: IndexNode, returned: IndexNode) {
    target.subtreeStart > returned.subtreeStart && target.subtreeEnd < returned.subtreeEnd
  }

  /** The planner's "most relevant" test. */
  predicate Covers(returned: IndexNode, target: IndexNode) {
    returned.subtreeStart <= target.subtreeStart && returned.subtreeEnd >= target.subtreeEnd
  }

  /** Interval containment is reachability. */
  ghost predicate NestedSets(e: Parents, nodes: seq<IndexNode>) {
    forall i, j :: 0 <= i < |nodes| && 0 <= j < |nodes| ==>
      (ProperDescendant(e, nodes[j].spanId, nodes[i].spanId) <==> StrictlyInside(nodes[j], nodes[i]))
  }

  /** The endpoints of `nodes` are the numbers lo, ..., hi - 1, each used once. */
  ghost predicate Numbering(nodes: seq<IndexNode>, lo: int, hi: int) {
    && hi - lo == 2 * |nodes|
    && (forall i :: 0 <= i < |nodes| ==> lo <= nodes[i].subtreeStart < nodes[i].subtreeEnd < hi)
    && (forall i, j :: 0 <= i < j < |nodes| ==>
          && nodes[i].subtreeStart != nodes[j].subtreeStart && nodes[i].subtreeStart != nodes[j].subtreeEnd
          && nodes[i].subtreeEnd != nodes[j].subtreeStart && nodes[i].subtreeEnd != nodes[j].subtreeEnd)
    && (forall k :: lo <= k < hi ==> UsedAt(nodes, k))
  }

  ghost predicate UsedAt(nodes: seq<IndexNode>, k: int) {
    exists i :: 0 <= i < |nodes| && (nodes[i].subtreeStart == k || nodes[i].subtreeEnd == k)
  }

  ghost predicate DistinctNodes(nodes: seq<IndexNode>) {
    forall i, j :: 0 <= i < j < |nodes| ==> nodes[i].spanId != nodes[j].spanId
  }

  ghost predicate HasNode(nodes: seq<IndexNode>, x: SpanId) {
    exists i :: 0 <= i < |nodes| && nodes[i].spanId == x
  }

  /** `nodes` lists exactly the spans that `member` selects. */
  ghost predicate Lists(nodes: seq<IndexNode>, members: set<SpanId>) {
    && DistinctNodes(nodes)
    && (forall x :: HasNode(nodes, x) <==> x in members)
  }

  /** The span and everything below it. */
  ghost function Subtree(e: Parents, x: SpanId): set<SpanId> {
    set v | v in e && Reaches(e, v, x)
  }

  ghost function Forest(e: Parents, roots: seq<SpanId>): set<SpanId> {
    set v, i | v in e && 0 <= i < |roots| && Reaches(e, v, roots[i]) :: v
  }

  /** Numbered, listed once and nested: what one numbered stretch of the walk guarantees. */
  ghost predicate Block(e: Parents, nodes: seq<IndexNode>, members: set<SpanId>, lo: int, hi: int) {
    Lists(nodes, members) && Numbering(nodes, lo, hi) && NestedSets(e, nodes)
  }

  // ---- joining blocks ----

  lemma {:induction false} ListsJoin(a: seq<IndexNode>, b: seq<IndexNode>, ma: set<SpanId>, mb: set<SpanId>)
    requires Lists(a, ma) && Lists(b, mb) && ma !! mb
    ensures Lists(a + b, ma + mb)
  {
    var c := a + b;
    forall i, j | 0 <= i < j < |c|
      ensures c[i].spanId != c[j].spanId
    {
      if i < |a| <= j {
        assert HasNode(a, a[i].spanId);
        assert c[j] == b[j - |a|] && HasNode(b, b[j - |a|].spanId);
      }
    }
    forall x
      ensures HasNode(c, x) <==> x in ma + mb
    {
      if HasNode(a, x) {
        var i :| 0 <= i < |a| && a[i].spanId == x;
        assert c[i].spanId == x;
      }
      if HasNode(b, x) {
        var i :| 0 <= i < |b| && b[i].spanId == x;
        assert c[|a| + i].spanId == x;
      }
      if HasNode(c, x) {
        var i :| 0 <= i < |c| && c[i].spanId == x;
        assert if i < |a| then HasNode(a, x) else b[i - |a|].spanId == x && HasNode(b, x);
      }
    }
  }

  lemma {:induction false} NumberingJoin(a: seq<IndexNode>, b: seq<IndexNode>, lo: int, mid: int, hi: int)
    requires Numbering(a, lo, mid) && Numbering(b, mid, hi)
    ensures Numbering(a + b, lo, hi)
  {
    var c := a + b;
    forall k | lo <= k < hi
      ensures UsedAt(c, k)
    {
      if k < mid {
        assert UsedAt(a, k);
        var i :| 0 <= i < |a| && (a[i].subtreeStart == k || a[i].subtreeEnd == k);
        assert c[i] == a[i];
      } else {
        assert UsedAt(b, k);
        var i :| 0 <= i < |b| && (b[i].subtreeStart == k || b[i].subtreeEnd == k);
        assert c[|a| + i] == b[i];
      }
    }
  }

  /** Sibling blocks: disjoint spans, adjacent numbers, and no span of one lies below the other. */
  lemma {:induction false} BlockJoin(e: Parents, a: seq<IndexNode>, b: seq<IndexNode>, ma: set<SpanId>, mb: set<SpanId>, lo: int, mid: int, hi: int)
    requires Block(e, a, ma, lo, mid) && Block(e, b, mb, mid, hi)
    requires ma !! mb
    requires forall u, v :: u in ma && v in mb ==> !ProperDescendant(e, u, v) && !ProperDescendant(e, v, u)
    ensures Block(e, a + b, ma + mb, lo, hi)
  {
    ListsJoin(a, b, ma, mb);
    NumberingJoin(a, b, lo, mid, hi);
    var c := a + b;
    forall i, j | 0 <= i < |c| && 0 <= j < |c|
      ensures ProperDescendant(e, c[j].spanId, c[i].spanId) <==> StrictlyInside(c[j], c[i])
    {
      if i < |a| <= j {
        assert c[j] == b[j - |a|] && HasNode(a, a[i].spanId) && HasNode(b, b[j - |a|].spanId);
      } else if j < |a| <= i {
        assert c[i] == b[i - |a|] && HasNode(a, a[j].spanId) && HasNode(b, b[i - |a|].spanId);
      } else if i < |a| {
        assert c[i] == a[i] && c[j] == a[j];
      } else {
        assert c[i] == b[i - |a|] && c[j] == b[j - |a|];
      }
    }
  }

  lemma {:induction false} NumberingClose(below: seq<IndexNode>, node: IndexNode, lo: int, hi: int)
    requires Numbering(below, lo + 1, hi) && node.subtreeStart == lo && node.subtreeEnd == hi
    ensures Numbering(below + [node], lo, hi + 1)
  {
    var c := below + [node];
    forall k | lo <= k < hi + 1
      ensures UsedAt(c, k)
    {
      if lo < k < hi {
        assert UsedAt(below, k);
        var i :| 0 <= i < |below| && (below[i].subtreeStart == k || below[i].subtreeEnd == k);
        assert c[i] == below[i];
      } else {
        assert c[|below|] == node;
      }
    }
  }

  lemma {:induction false} StrictlyBelow(below: seq<IndexNode>, node: IndexNode, lo: int, hi: int)
    requires Numbering(below, lo + 1, hi) && node.subtreeStart == lo && node.subtreeEnd == hi
    ensures forall i :: 0 <= i < |below| ==> StrictlyInside(below[i], node) && !StrictlyInside(node, below[i])
    ensures !StrictlyInside(node, node)
  {
  }

  /** Closing a node over its children's block. */
  lemma {:induction false} BlockClose(e: Parents, below: seq<IndexNode>, members: set<SpanId>, node: IndexNode, lo: int, hi: int)
    requires Acyclic(e)
    requires Block(e, below, members, lo + 1, hi)
    requires node.subtreeStart == lo && node.subtreeEnd == hi
    requires forall v :: v in members ==> ProperDescendant(e, v, node.spanId)
    ensures Block(e, below + [node], members + {node.spanId}, lo, hi + 1)
  {
    var x := node.spanId;
    assert x !in members by {
      assert !OnCycle(e, x);
    }
    assert Lists([node], {x}) by {
      assert [node][0] == node;
    }
    ListsJoin(below, [node], members, {x});
    NumberingClose(below, node, lo, hi);
    var c := below + [node];
    hide Reaches, ProperDescendant, Numbering, StrictlyInside;
    StrictlyBelow(below, node, lo, hi);
    assert !ProperDescendant(e, x, x) by { assert !OnCycle(e, x); }
    forall i | 0 <= i < |below|
      ensures ProperDescendant(e, below[i].spanId, x) && !ProperDescendant(e, x, below[i].spanId)
    {
      assert HasNode(below, below[i].spanId);
      NotAbove(e, below[i].spanId, x);
    }
    forall i, j | 0 <= i < |c| && 0 <= j < |c|
      ensures ProperDescendant(e, c[j].spanId, c[i].spanId) <==> StrictlyInside(c[j], c[i])
    {
      assert c[i] == (if i < |below| then below[i] else node) && c[j] == (if j < |below| then below[j] else node);
    }
  }

  lemma {:induction false} NotAbove(e: Parents, below: SpanId, x: SpanId)
    requires Acyclic(e) && ProperDescendant(e, below, x)
    ensures !ProperDescendant(e, x, below)
  {
    ReachesUnfold(e, x, below);
    ReachesUnfold(e, below, x);
    assert !OnCycle(e, x);
    if ProperDescendant(e, x, below) {
      ReachesTransitive(e, x, below, x);
    }
  }

  // ---- subtrees of a forest ----

  /** Subtrees below two different children of one parent (or two different roots) never meet. */
  lemma {:induction false} SiblingsApart(e: Parents, parent: Option<SpanId>, a: SpanId, b: SpanId)
    requires Acyclic(e)
    requires a in e && b in e && a != b && e[a] == parent && e[b] == parent
    ensures Subtree(e, a) !! Subtree(e, b)
    ensures forall u, v :: u in Subtree(e, a) && v in Subtree(e, b) ==>
              !ProperDescendant(e, u, v) && !ProperDescendant(e, v, u)
  {
    forall u | u in Subtree(e, a) && u in Subtree(e, b)
      ensures false
    {
      ChainLinear(e, u, a, b);
      if Reaches(e, a, b) {
        SiblingBelow(e, parent, a, b);
      } else {
        SiblingBelow(e, parent, b, a);
      }
    }
    forall u, v | u in Subtree(e, a) && v in Subtree(e, b)
      ensures !ProperDescendant(e, u, v) && !ProperDescendant(e, v, u)
    {
      ReachesUnfold(e, u, v);
      ReachesUnfold(e, v, u);
      if Reaches(e, u, v) {
        ReachesTransitive(e, u, v, b);
      }
      if Reaches(e, v, u) {
        ReachesTransitive(e, v, u, a);
      }
    }
  }

  lemma {:induction false} SiblingBelow(e: Parents, parent: Option<SpanId>, a: SpanId, b: SpanId)
    requires Acyclic(e)
    requires a in e && b in e && a != b && e[a] == parent && e[b] == parent
    ensures !Reaches(e, a, b)
  {
    if Reaches(e, a, b) {
      ReachesUnfold(e, a, b);
      DescendantUnfold(e, a, b);
      assert !OnCycle(e, b);
      DescendantUnfold(e, b, b);
    }
  }

  lemma {:induction false} ForestStep(e: Parents, roots: seq<SpanId>, i: nat)
    requires i < |roots|
    ensures Forest(e, roots[..i + 1]) == Forest(e, roots[..i]) + Subtree(e, roots[i])
  {
    forall v
      ensures v in Forest(e, roots[..i + 1]) <==> v in Forest(e, roots[..i]) + Subtree(e, roots[i])
    {
      if v in Forest(e, roots[..i]) {
        var j :| 0 <= j < i && Reaches(e, v, roots[..i][j]);
        assert roots[..i + 1][j] == roots[j];
      }
      if v in Subtree(e, roots[i]) {
        assert roots[..i + 1][i] == roots[i];
      }
      if v in Forest(e, roots[..i + 1]) {
        var j :| 0 <= j < i + 1 && Reaches(e, v, roots[..i + 1][j]);
        assert j < i ==> roots[..i][j] == roots[j];
      }
    }
  }

  /** The siblings visited so far and the next one can be joined. */
  lemma {:induction false} NextSiblingApart(e: Parents, parent: Option<SpanId>, roots: seq<SpanId>, i: nat)
    requires Acyclic(e) && i < |roots|
    requires forall k :: 0 <= k < |roots| ==> roots[k] in e && e[roots[k]] == parent
    requires forall j, k :: 0 <= j < k < |roots| ==> roots[j] != roots[k]
    ensures Forest(e, roots[..i]) !! Subtree(e, roots[i])
    ensures forall u, v :: u in Forest(e, roots[..i]) && v in Subtree(e, roots[i]) ==>
              !ProperDescendant(e, u, v) && !ProperDescendant(e, v, u)
  {
    forall u, v | u in Forest(e, roots[..i]) && v in Subtree(e, roots[i])
      ensures u != v && !ProperDescendant(e, u, v) && !ProperDescendant(e, v, u)
    {
      var j :| 0 <= j < i && Reaches(e, u, roots[..i][j]);
      assert roots[..i][j] == roots[j];
      SiblingsApart(e, parent, roots[j], roots[i]);
      assert u in Subtree(e, roots[j]);
    }
  }

  /** What lies properly below a span is what lies in its children's subtrees. */
  lemma {:induction false} SubtreeIsChildren(e: Parents, x: SpanId, kids: seq<SpanId>)
    requires x in e
    requires forall k :: 0 <= k < |kids| ==> kids[k] in e && e[kids[k]] == Some(x)
    requires forall v :: v in e && e[v] == Some(x) ==> v in kids
    ensures Subtree(e, x) == Forest(e, kids) + {x}
    ensures forall v :: v in Forest(e, kids) ==> ProperDescendant(e, v, x)
  {
    forall v | v in Forest(e, kids)
      ensures ProperDescendant(e, v, x) && v in Subtree(e, x)
    {
      var k :| 0 <= k < |kids| && Reaches(e, v, kids[k]);
      ReachesUnfold(e, x, x);
      DescendantUnfold(e, kids[k], x);
      ReachesUnfold(e, kids[k], x);
      ReachesTransitive(e, v, kids[k], x);
      ReachesUnfold(e, v, x);
    }
    ReachesUnfold(e, x, x);
    forall v | v in Subtree(e, x) && v != x
      ensures v in Forest(e, kids)
    {
      ReachesUnfold(e, v, x);
      var n: nat :| n >= 1 && UpIs(e, v, n, x);
      UpKnown(e, v, n);
      var c := Up(e, v, n - 1).value;
      assert UpIs(e, v, n - 1, c);
      var k :| 0 <= k < |kids| && kids[k] == c;
    }
  }

  lemma {:induction false} SpansAboveGrow(e: Parents, x: SpanId, above: set<SpanId>, child: SpanId)
    requires Acyclic(e) && x in e && child in e && e[child] == Some(x)
    requires above == set y | y in e && ProperDescendant(e, x, y)
    ensures above + {x} == set y | y in e && ProperDescendant(e, child, y)
    ensures x !in above && child !in above + {x}
  {
    assert !OnCycle(e, x) && !OnCycle(e, child);
    forall y
      ensures ProperDescendant(e, child, y) <==> Reaches(e, x, y)
    {
      DescendantUnfold(e, child, y);
    }
    forall y
      ensures Reaches(e, x, y) <==> x == y || ProperDescendant(e, x, y)
    {
      ReachesUnfold(e, x, y);
    }
  }

  // ---- the walk ----

  /** What a visit may rely on: where `spanId` stands in the forest it belongs to. */
  ghost predicate Visitable(
    parents: Parents, inputs: Inputs, children: Children,
    spanId: SpanId, depth: int, siblingOrder: int, rootSpanId: SpanId, rootRunId: string, above: set<SpanId>)
  {
    var e := EffectiveParents(parents);
    && ForestOf(parents, inputs, children)
    && spanId in parents && depth >= 0
    && UpIs(e, spanId, depth, rootSpanId)
    && rootSpanId in inputs && EffectiveParent(parents, rootSpanId) == None
    && rootRunId == StableRunId(inputs[rootSpanId].run)
    && 0 <= siblingOrder < |children[EffectiveParent(parents, spanId)]|
    && children[EffectiveParent(parents, spanId)][siblingOrder] == spanId
    && above == set y | y in e && ProperDescendant(e, spanId, y)
  }

  function KidsOf(children: Children, spanId: SpanId): seq<SpanId> {
    if Some(spanId) in children then children[Some(spanId)] else []
  }

  lemma {:induction false} KidsComplete(parents: Parents, inputs: Inputs, children: Children, x: SpanId)
    requires ForestOf(parents, inputs, children) && x in parents
    ensures var e := EffectiveParents(parents);
      var kids := KidsOf(children, x);
      && x in e
      && (forall k :: 0 <= k < |kids| ==> kids[k] in e && e[kids[k]] == Some(x))
      && (forall j, k :: 0 <= j < k < |kids| ==> kids[j] != kids[k])
      && (forall v :: v in e && e[v] == Some(x) ==> v in kids)
  {
  }

  lemma {:induction false} ChildVisitable(
    parents: Parents, inputs: Inputs, children: Children,
    spanId: SpanId, depth: int, siblingOrder: int, rootSpanId: SpanId, rootRunId: string, above: set<SpanId>, i: nat)
    requires Visitable(parents, inputs, children, spanId, depth, siblingOrder, rootSpanId, rootRunId, above)
    requires i < |KidsOf(children, spanId)|
    ensures Visitable(parents, inputs, children, KidsOf(children, spanId)[i], depth + 1, i, rootSpanId, rootRunId, above + {spanId})
    ensures spanId in EffectiveParents(parents) && spanId !in above
  {
    hide ForestOf, Acyclic;
    var e := EffectiveParents(parents);
    EffectiveParentsAcyclic(parents);
    KidsComplete(parents, inputs, children, spanId);
    var child := KidsOf(children, spanId)[i];
    SpansAboveGrow(e, spanId, above, child);
    assert Up(e, child, 0) == Some(child);
    assert UpIs(e, child, 1, spanId);
    UpAdd(e, child, spanId, 1, depth);
    assert EffectiveParent(parents, child) == Some(spanId);
  }

  /** The nodes pushed for the first `i` of a list of siblings. */
  ghost predicate SiblingsDone(
    parents: Parents, inputs: Inputs, children: Children, siblings: seq<SpanId>, i: nat, out: seq<IndexNode>, lo: int, hi: int)
    requires i <= |siblings|
  {
    && Block(EffectiveParents(parents), out, Forest(EffectiveParents(parents), siblings[..i]), lo, hi)
    && AllCorrect(parents, inputs, children, out)
  }

  ghost predicate SubtreeDone(
    parents: Parents, inputs: Inputs, children: Children, spanId: SpanId, out: seq<IndexNode>, lo: int, hi: int)
  {
    && Block(EffectiveParents(parents), out, Subtree(EffectiveParents(parents), spanId), lo, hi)
    && AllCorrect(parents, inputs, children, out)
  }

  lemma {:induction false} NoSiblingsDone(parents: Parents, inputs: Inputs, children: Children, siblings: seq<SpanId>, lo: int)
    ensures SiblingsDone(parents, inputs, children, siblings, 0, [], lo, lo)
  {
  }

  lemma {:induction false} NextSiblingDone(
    parents: Parents, inputs: Inputs, children: Children, parent: Option<SpanId>, i: nat,
    out: seq<IndexNode>, pushed: seq<IndexNode>, lo: int, mid: int, hi: int)
    requires ForestOf(parents, inputs, children) && parent in children && i < |children[parent]|
    requires SiblingsDone(parents, inputs, children, children[parent], i, out, lo, mid)
    requires SubtreeDone(parents, inputs, children, children[parent][i], pushed, mid, hi)
    ensures SiblingsDone(parents, inputs, children, children[parent], i + 1, out + pushed, lo, hi)
  {
    var e := EffectiveParents(parents);
    var siblings := children[parent];
    EffectiveParentsAcyclic(parents);
    NextSiblingApart(e, parent, siblings, i);
    BlockJoin(e, out, pushed, Forest(e, siblings[..i]), Subtree(e, siblings[i]), lo, mid, hi);
    ForestStep(e, siblings, i);
  }

  lemma {:induction false} NodeDone(
    parents: Parents, inputs: Inputs, children: Children,
    spanId: SpanId, depth: int, siblingOrder: int, rootSpanId: SpanId, rootRunId: string, above: set<SpanId>,
    out: seq<IndexNode>, node: IndexNode, lo: int, hi: int)
    requires Visitable(parents, inputs, children, spanId, depth, siblingOrder, rootSpanId, rootRunId, above)
    requires SiblingsDone(parents, inputs, children, KidsOf(children, spanId), |KidsOf(children, spanId)|, out, lo + 1, hi)
    requires node == NodeFor(inputs[spanId], rootSpanId, rootRunId, depth, siblingOrder, lo, hi, |out|)
    ensures SubtreeDone(parents, inputs, children, spanId, out + [node], lo, hi + 1)
  {
    hide Block, Subtree, Forest, NodeCorrect, Acyclic, ForestOf;
    var e := EffectiveParents(parents);
    var kids := KidsOf(children, spanId);
    EffectiveParentsAcyclic(parents);
    KidsComplete(parents, inputs, children, spanId);
    SubtreeIsChildren(e, spanId, kids);
    assert kids[..|kids|] == kids;
    InputKnown(parents, inputs, children, spanId);
    BlockSize(e, out, Forest(e, kids), lo + 1, hi);
    BlockClose(e, out, Forest(e, kids), node, lo, hi);
    BlockSize(e, out + [node], Subtree(e, spanId), lo, hi + 1);
    NodeIsCorrect(parents, inputs, children, spanId, depth, siblingOrder, rootSpanId, rootRunId, above, node, lo, hi, |out|);
  }

  lemma {:induction false} InputKnown(parents: Parents, inputs: Inputs, children: Children, x: SpanId)
    requires ForestOf(parents, inputs, children) && x in parents
    ensures x in inputs && InputOf(parents, x, inputs[x])
    ensures EffectiveParent(parents, x) in children && inputs.Keys == parents.Keys
  {
  }

  lemma {:induction false} BlockSize(e: Parents, nodes: seq<IndexNode>, members: set<SpanId>, lo: int, hi: int)
    requires Block(e, nodes, members, lo, hi)
    ensures hi - lo == 2 * |nodes|
    ensures |members| == |nodes|
  {
    ListsCount(nodes, members);
  }

  lemma {:induction false} ListsCount(nodes: seq<IndexNode>, members: set<SpanId>)
    requires Lists(nodes, members)
    ensures |members| == |nodes|
  {
    if nodes == [] {
      forall x
        ensures x !in members
      {
        assert !HasNode(nodes, x);
      }
    } else {
      var front := nodes[..|nodes| - 1];
      var last := nodes[|nodes| - 1].spanId;
      forall x
        ensures HasNode(front, x) <==> x in members - {last}
      {
        assert HasNode(nodes, x) <==> x in members;
        if HasNode(front, x) {
          var i :| 0 <= i < |front| && front[i].spanId == x;
          assert nodes[i].spanId == x;
        }
        if HasNode(nodes, x) && x != last {
          var i :| 0 <= i < |nodes| && nodes[i].spanId == x;
          assert front[i].spanId == x;
        }
      }
      ListsCount(front, members - {last});
      assert HasNode(nodes, last);
    }
  }

  lemma {:induction false} NodeIsCorrect(
    parents: Parents, inputs: Inputs, children: Children,
    spanId: SpanId, depth: int, siblingOrder: int, rootSpanId: SpanId, rootRunId: string, above: set<SpanId>,
    node: IndexNode, lo: int, hi: int, count: nat)
    requires Visitable(parents, inputs, children, spanId, depth, siblingOrder, rootSpanId, rootRunId, above)
    requires spanId in inputs && hi - lo - 1 == 2 * count && count + 1 == |Subtree(EffectiveParents(parents), spanId)|
    requires node == NodeFor(inputs[spanId], rootSpanId, rootRunId, depth, siblingOrder, lo, hi, count)
    ensures NodeCorrect(parents, inputs, children, node)
  {
    hide ForestOf, Acyclic, Subtree;
    EffectiveParentsAcyclic(parents);
    InputKnown(parents, inputs, children, spanId);
  }

  function NodeFor(
    input: IndexedRun, rootSpanId: SpanId, rootRunId: string, depth: int, siblingOrder: int,
    subtreeStart: int, subtreeEnd: int, descendantCount: int): IndexNode
  {
    IndexNode(
      input.run.spanId, input.run.runId, input.run.generatedRunId, input.effectiveParent,
      rootSpanId, rootRunId, depth, siblingOrder, subtreeStart, subtreeEnd, descendantCount,
      input.unresolvedParent, input.cycleDetected)
  }

  /**
   `visit_tree_node`: numbers the subtree of `spanId` from `nextOrder` on and pushes its nodes
   children first.  `out` is what the call pushes, `next` the counter afterwards.
   */
  method VisitTreeNode(
    spanId: SpanId, depth: int, siblingOrder: int, rootSpanId: SpanId, rootRunId: string,
    inputs: Inputs, children: Children, nextOrder: int,
    ghost parents: Parents, ghost above: set<SpanId>)
    returns (descendantCount: int, next: int, out: seq<IndexNode>)
    requires Visitable(parents, inputs, children, spanId, depth, siblingOrder, rootSpanId, rootRunId, above)
    ensures SubtreeDone(parents, inputs, children, spanId, out, nextOrder, next)
    ensures descendantCount == |out| - 1
    decreases EffectiveParents(parents).Keys - above
  {
    hide SiblingsDone, SubtreeDone;
    var subtreeStart := nextOrder;
    next := nextOrder + 1;
    descendantCount := 0;
    out := [];
    var kids := KidsOf(children, spanId);
    NoSiblingsDone(parents, inputs, children, kids, next);
    var i := 0;
    while i < |kids|
      invariant 0 <= i <= |kids|
      invariant SiblingsDone(parents, inputs, children, kids, i, out, nextOrder + 1, next)
      invariant descendantCount == |out|
    {
      ChildVisitable(parents, inputs, children, spanId, depth, siblingOrder, rootSpanId, rootRunId, above, i);
      var below, after, pushed := VisitTreeNode(
        kids[i], depth + 1, i, rootSpanId, rootRunId, inputs, children, next, parents, above + {spanId});
      NextSiblingDone(parents, inputs, children, Some(spanId), i, out, pushed, nextOrder + 1, next, after);
      descendantCount := descendantCount + 1 + below;
      out := out + pushed;
      next := after;
      i := i + 1;
    }
    var node := NodeFor(inputs[spanId], rootSpanId, rootRunId, depth, siblingOrder, subtreeStart, next, descendantCount);
    NodeDone(parents, inputs, children, spanId, depth, siblingOrder, rootSpanId, rootRunId, above, out, node, nextOrder, next);
    out := out + [node];
    next := next + 1;
  }

  // ---- the whole index ----

  ghost predicate SiblingsOrdered(inputs: Inputs, children: Children) {
    forall p, i, j :: p in children && 0 <= i < j < |children[p]| ==>
      children[p][i] in inputs && children[p][j] in inputs && RunLeq(inputs[children[p][i]].run, inputs[children[p][j]].run)
  }

  lemma {:induction false} RunLeqIsTotal()
    ensures Ordering.TotalPreorder(RunLeq)
  {
    Ordering.StringLeqIsTotalOrder();
  }

  /** The inputs collected from the first `n` runs. */
  ghost predicate InputsDone(parents: Parents, runs: seq<RunInput>, n: nat, inputs: Inputs)
    requires n <= |runs|
  {
    && (forall i :: 0 <= i < n ==> runs[i].spanId in inputs && inputs[runs[i].spanId].run == runs[i])
    && (forall x :: x in inputs ==> InputOf(parents, x, inputs[x]) && inputs[x].run in runs[..n])
  }

  ghost predicate KidsSound(inputs: Inputs, children: Children) {
    && (forall p, i :: p in children && 0 <= i < |children[p]| ==>
          children[p][i] in inputs && inputs[children[p][i]].effectiveParent == p)
    && (forall p, i, j :: p in children && 0 <= i < j < |children[p]| ==> children[p][i] != children[p][j])
    && SiblingsOrdered(inputs, children)
  }

  ghost predicate KidsListed(inputs: Inputs, children: Children) {
    forall x :: x in inputs ==>
      inputs[x].effectiveParent in children && x in children[inputs[x].effectiveParent]
  }

  function Enter(children: Children, p: Option<SpanId>, x: SpanId): Children {
    children[p := (if p in children then children[p] else []) + [x]]
  }

  lemma {:induction false} KidsSoundStep(inputs: Inputs, children: Children, x: SpanId, entry: IndexedRun)
    requires KidsSound(inputs, children) && x !in inputs
    requires forall y :: y in inputs ==> RunLeq(inputs[y].run, entry.run)
    ensures KidsSound(inputs[x := entry], Enter(children, entry.effectiveParent, x))
  {
    var children' := Enter(children, entry.effectiveParent, x);
    forall p | p in children' && p != entry.effectiveParent
      ensures children'[p] == children[p]
    {
    }
  }

  lemma {:induction false} KidsListedStep(inputs: Inputs, children: Children, x: SpanId, entry: IndexedRun)
    requires KidsListed(inputs, children) && x !in inputs
    ensures KidsListed(inputs[x := entry], Enter(children, entry.effectiveParent, x))
  {
    var children' := Enter(children, entry.effectiveParent, x);
    var p := entry.effectiveParent;
    assert children'[p][|children'[p]| - 1] == x;
    forall y | y in inputs
      ensures inputs[y].effectiveParent in children' && y in children'[inputs[y].effectiveParent]
    {
      var q := inputs[y].effectiveParent;
      var k :| 0 <= k < |children[q]| && children[q][k] == y;
      assert children'[q][k] == y;
    }
  }

  lemma {:induction false} InputsStep(parents: Parents, runs: seq<RunInput>, n: nat, inputs: Inputs, entry: IndexedRun)
    requires DistinctSpans(runs) && Ordering.Sorted(runs, RunLeq) && n < |runs|
    requires InputsDone(parents, runs, n, inputs)
    requires entry.run == runs[n] && InputOf(parents, runs[n].spanId, entry)
    ensures runs[n].spanId !in inputs
    ensures forall y :: y in inputs ==> RunLeq(inputs[y].run, entry.run)
    ensures InputsDone(parents, runs, n + 1, inputs[runs[n].spanId := entry])
  {
    assert runs[..n + 1] == runs[..n] + [runs[n]];
    forall y | y in inputs
      ensures y != runs[n].spanId && RunLeq(inputs[y].run, entry.run)
    {
      var k :| 0 <= k < n && runs[..n][k] == inputs[y].run;
      assert RunLeq(runs[k], runs[n]) && runs[k].spanId != runs[n].spanId;
    }
  }

  lemma {:induction false} PassIsForest(parents: Parents, runs: seq<RunInput>, inputs: Inputs, children: Children)
    requires DistinctSpans(runs) && parents == ParentsOf(runs)
    requires InputsDone(parents, runs, |runs|, inputs) && KidsSound(inputs, children) && KidsListed(inputs, children)
    ensures ForestOf(parents, inputs, children) && SiblingsOrdered(inputs, children)
  {
    hide ParentsOf, Reaches, OnCycle, InputsDone, EffectiveParent, RunLeq, DistinctSpans;
    InputsCover(parents, runs, inputs);
    forall x | x in parents
      ensures EffectiveParent(parents, x) in children && x in children[EffectiveParent(parents, x)]
    {
      assert InputOf(parents, x, inputs[x]);
    }
  }

  lemma {:induction false} InputsCover(parents: Parents, runs: seq<RunInput>, inputs: Inputs)
    requires DistinctSpans(runs) && parents == ParentsOf(runs)
    requires InputsDone(parents, runs, |runs|, inputs)
    ensures inputs.Keys == parents.Keys && forall x :: x in inputs ==> InputOf(parents, x, inputs[x])
  {
    ParentsOfRuns(runs);
    forall x | x in parents
      ensures x in inputs
    {
      assert HasRun(runs, x, parents[x]);
    }
  }

  /** The first pass of `build_trace_tree_index` over the ordered runs. */
  method IndexInputs(runs: seq<RunInput>, parents: Parents) returns (inputs: Inputs, children: Children)
    requires DistinctSpans(runs) && Ordering.Sorted(runs, RunLeq) && parents == ParentsOf(runs)
    ensures ForestOf(parents, inputs, children) && SiblingsOrdered(inputs, children)
    ensures forall i :: 0 <= i < |runs| ==> runs[i].spanId in inputs && inputs[runs[i].spanId].run == runs[i]
  {
    inputs, children := map[], map[];
    var n := 0;
    ParentsOfRuns(runs);
    while n < |runs|
      invariant 0 <= n <= |runs|
      invariant InputsDone(parents, runs, n, inputs)
      invariant KidsSound(inputs, children) && KidsListed(inputs, children)
    {
      hide InputsDone, KidsSound, KidsListed;
      var run := runs[n];
      assert HasRun(runs, run.spanId, run.parentSpanId);
      var unresolved := run.parentSpanId.Some? && run.parentSpanId.value !in parents;
      var cyclic := false;
      if run.parentSpanId.Some? && run.parentSpanId.value in parents {
        cyclic := ParentCreatesCycle(run.spanId, run.parentSpanId.value, parents);
      }
      CycleFlagExact(parents, run.spanId);
      ReachesUnfold(parents, run.spanId, run.spanId);
      var effective := if run.parentSpanId.Some? && run.parentSpanId.value in parents
        && run.parentSpanId.value != run.spanId && !cyclic then run.parentSpanId else None;
      var entry := IndexedRun(run, effective, unresolved, cyclic);
      InputsStep(parents, runs, n, inputs, entry);
      KidsSoundStep(inputs, children, run.spanId, entry);
      KidsListedStep(inputs, children, run.spanId, entry);
      children := Enter(children, effective, run.spanId);
      inputs := inputs[run.spanId := entry];
      n := n + 1;
    }
    PassIsForest(parents, runs, inputs, children);
  }

  /** Every span hangs below exactly one root. */
  lemma {:induction false} RootsCover(parents: Parents, inputs: Inputs, children: Children)
    requires ForestOf(parents, inputs, children)
    ensures var e := EffectiveParents(parents);
      var roots := if None in children then children[None] else [];
      Forest(e, roots) == parents.Keys
  {
    var e := EffectiveParents(parents);
    var roots := if None in children then children[None] else [];
    EffectiveParentsAcyclic(parents);
    forall x | x in parents
      ensures x in Forest(e, roots)
    {
      var r := RootOf(e, x, {});
      assert r in roots;
      var i :| 0 <= i < |roots| && roots[i] == r;
    }
  }

  lemma {:induction false} RootOf(e: Parents, x: SpanId, below: set<SpanId>) returns (r: SpanId)
    requires Acyclic(e) && x in e
    requires forall y :: y in e && e[y].Some? ==> e[y].value in e
    requires below <= e.Keys && forall y :: y in below ==> ProperDescendant(e, y, x)
    ensures r in e && Reaches(e, x, r) && e[r] == None
    decreases e.Keys - below
  {
    ReachesUnfold(e, x, x);
    if e[x] == None {
      r := x;
    } else {
      var p := e[x].value;
      assert !OnCycle(e, x);
      DescendantUnfold(e, x, p);
      ReachesUnfold(e, p, p);
      forall y | y in below + {x}
        ensures ProperDescendant(e, y, p)
      {
        ReachesUnfold(e, y, x);
        ReachesUnfold(e, x, p);
        ReachesTransitive(e, y, x, p);
      }
      r := RootOf(e, p, below + {x});
      ReachesUnfold(e, x, p);
      ReachesTransitive(e, x, p, r);
    }
  }

  lemma {:induction false} RootVisitable(parents: Parents, inputs: Inputs, children: Children, i: nat)
    requires ForestOf(parents, inputs, children) && None in children && i < |children[None]|
    ensures var r := children[None][i];
      && r in inputs
      && Visitable(parents, inputs, children, r, 0, i, r, StableRunId(inputs[r].run), {})
  {
    var e := EffectiveParents(parents);
    var r := children[None][i];
    assert UpIs(e, r, 0, r);
    forall y
      ensures !ProperDescendant(e, r, y)
    {
      DescendantUnfold(e, r, y);
    }
  }
}
