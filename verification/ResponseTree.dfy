/**
 The tree of runs returned for a trace: runs hung under their parents by a walk with a
 visited set, whatever the parent pointers look like (src/query/tree.rs).
 */
module ResponseTree {
  import opened Wrappers
  import opened Sequences

  /** Span ids are only compared with one another. */
  type Id = int

  datatype Run = Run(span: Id, parent: Option<Id>, payload: string)

  datatype RunNode = RunNode(run: Run, children: seq<RunNode>)

  // ---- the spans of a tree ----

  /** The spans of a node and everything below it, with repetitions. */
  function Spans(node: RunNode): multiset<Id>
    decreases node, 0
  {
    multiset{node.run.span} + SpansAll(node.children)
  }

  function SpansAll(nodes: seq<RunNode>): multiset<Id>
    decreases nodes, 1
  {
    if nodes == [] then multiset{} else Spans(nodes[0]) + SpansAll(nodes[1..])
  }

  lemma {:induction false} SpansAppend(nodes: seq<RunNode>, node: RunNode)
    ensures SpansAll(nodes + [node]) == SpansAll(nodes) + Spans(node)
  {
    if nodes == [] {
      assert nodes + [node] == [node];
      assert [node][1..] == [];
    } else {
      SpansAppend(nodes[1..], node);
      assert (nodes + [node])[1..] == nodes[1..] + [node];
    }
  }

  function Heads(nodes: seq<RunNode>): (heads: seq<Id>)
    ensures |heads| == |nodes|
  {
    seq(|nodes|, i requires 0 <= i < |nodes| => nodes[i].run.span)
  }

  /** The children of every node are among those listed for it, in the list's order, and every run is the one known by its span. */
  ghost predicate FollowsParents(node: RunNode, kids: map<Option<Id>, seq<Id>>, byId: map<Id, Run>) {
    && node.run.span in byId && node.run == byId[node.run.span]
    && KeepsOrder(Heads(node.children), Kids(kids, Some(node.run.span)))
    && forall i :: 0 <= i < |node.children| ==> FollowsParents(node.children[i], kids, byId)
  }

  function Kids(kids: map<Option<Id>, seq<Id>>, parent: Option<Id>): seq<Id> {
    if parent in kids then kids[parent] else []
  }

  // ---- what the maps hold ----

  function KnownParent(run: Run, known: set<Id>): Option<Id> {
    if run.parent.Some? && run.parent.value in known then run.parent else None
  }

  /** The spans of the runs with this known parent, in the order of the runs. */
  function Under(runs: seq<Run>, known: set<Id>, parent: Option<Id>): seq<Id> {
    if runs == [] then []
    else
      var n := |runs| - 1;
      Under(runs[..n], known, parent) + if KnownParent(runs[n], known) == parent then [runs[n].span] else []
  }

  /** The children map lists every run under its known parent. */
  ghost predicate KidsOf(runs: seq<Run>, known: set<Id>, kids: map<Option<Id>, seq<Id>>) {
    forall parent :: Kids(kids, parent) == Under(runs, known, parent)
  }

  ghost predicate ListedUnder(runs: seq<Run>, known: set<Id>, parent: Option<Id>, span: Id) {
    exists i :: 0 <= i < |runs| && runs[i].span == span && KnownParent(runs[i], known) == parent
  }

  lemma {:induction false} UnderMembers(runs: seq<Run>, known: set<Id>, parent: Option<Id>, span: Id)
    ensures span in Under(runs, known, parent) <==> ListedUnder(runs, known, parent, span)
  {
    if runs != [] {
      var n := |runs| - 1;
      UnderMembers(runs[..n], known, parent, span);
      hide KnownParent;
      if i :| 0 <= i < n && runs[..n][i].span == span && KnownParent(runs[..n][i], known) == parent {
        assert runs[i] == runs[..n][i];
      }
      if i :| 0 <= i < |runs| && runs[i].span == span && KnownParent(runs[i], known) == parent {
        assert i < n ==> runs[..n][i] == runs[i];
      }
    }
  }

  /** The last run with its span. */
  ghost predicate LastRun(runs: seq<Run>, run: Run) {
    exists j :: 0 <= j < |runs| && runs[j] == run && forall k :: j < k < |runs| ==> runs[k].span != run.span
  }

  ghost predicate ById(runs: seq<Run>, byId: map<Id, Run>) {
    && (forall i :: 0 <= i < |runs| ==> runs[i].span in byId)
    && (forall span :: span in byId ==> byId[span].span == span && LastRun(runs, byId[span]))
  }

  // ---- sets of visited spans ----

  lemma {:induction false} VisitedSplit(a: set<Id>, b: set<Id>, c: set<Id>)
    requires a <= b <= c
    ensures multiset(b - a) + multiset(c - b) == multiset(c - a)
  {
  }

  lemma {:induction false} VisitedOne(a: set<Id>, span: Id, c: set<Id>)
    requires span !in a && a + {span} <= c
    ensures multiset{span} + multiset(c - (a + {span})) == multiset(c - a)
  {
  }

  /** The children of whatever was visited since are visited. */
  ghost predicate ChildrenVisited(kids: map<Option<Id>, seq<Id>>, before: set<Id>, after: set<Id>) {
    forall span, kid :: span in after && span !in before && kid in Kids(kids, Some(span)) ==> kid in after
  }

  ghost predicate Maps(runs: seq<Run>, kids: map<Option<Id>, seq<Id>>, byId: map<Id, Run>) {
    ById(runs, byId) && KidsOf(runs, byId.Keys, kids)
  }

  lemma {:induction false} KidKnown(runs: seq<Run>, kids: map<Option<Id>, seq<Id>>, byId: map<Id, Run>, parent: Option<Id>, span: Id)
    requires Maps(runs, kids, byId) && span in Kids(kids, parent)
    ensures span in byId
  {
    UnderMembers(runs, byId.Keys, parent, span);
  }

  /** What visiting a span gives: nothing if it was visited, else a node holding each newly visited span once. */
  ghost predicate Visit(kids: map<Option<Id>, seq<Id>>, byId: map<Id, Run>, span: Id, visited: set<Id>, node: Option<RunNode>, seen: set<Id>) {
    && visited <= seen <= byId.Keys && span in seen
    && (span in visited ==> node == None && seen == visited)
    && (span !in visited ==> node.Some? && node.value.run.span == span)
    && (node.Some? ==> Spans(node.value) == multiset(seen - visited) && FollowsParents(node.value, kids, byId))
    && ChildrenVisited(kids, visited, seen)
  }

  lemma {:induction false} VisitAgain(kids: map<Option<Id>, seq<Id>>, byId: map<Id, Run>, span: Id, visited: set<Id>)
    requires span in visited && visited <= byId.Keys
    ensures Visit(kids, byId, span, visited, None, visited)
  {
  }

  /** Nodes built so far, holding each span visited since `start` once. */
  ghost predicate Forest(kids: map<Option<Id>, seq<Id>>, byId: map<Id, Run>, start: set<Id>, seen: set<Id>, nodes: seq<RunNode>, tops: seq<Id>) {
    && start <= seen <= byId.Keys
    && SpansAll(nodes) == multiset(seen - start)
    && KeepsOrder(Heads(nodes), tops)
    && (forall k :: 0 <= k < |nodes| ==> FollowsParents(nodes[k], kids, byId))
    && ChildrenVisited(kids, start, seen)
  }

  lemma {:induction false} NoForest(kids: map<Option<Id>, seq<Id>>, byId: map<Id, Run>, start: set<Id>)
    requires start <= byId.Keys
    ensures Forest(kids, byId, start, start, [], [])
  {
    KeepsAll(Heads([]));
  }

  lemma {:induction false} ForestGrows(
    kids: map<Option<Id>, seq<Id>>, byId: map<Id, Run>, start: set<Id>, seen: set<Id>, nodes: seq<RunNode>, tops: seq<Id>,
    span: Id, node: Option<RunNode>, next: set<Id>)
    requires Forest(kids, byId, start, seen, nodes, tops) && Visit(kids, byId, span, seen, node, next)
    ensures Forest(kids, byId, start, next, if node.Some? then nodes + [node.value] else nodes, tops + [span])
  {
    hide FollowsParents, ChildrenVisited, Spans, SpansAll, KeepsOrder;
    VisitedTwice(kids, start, seen, next);
    if node.Some? {
      SpansAppend(nodes, node.value);
      VisitedSplit(start, seen, next);
      KeepsBefore(Heads(nodes), tops, [span]);
      assert Heads(nodes + [node.value]) == Heads(nodes) + [span];
    } else {
      KeepsMore(Heads(nodes), tops, [span]);
    }
  }

  lemma {:induction false} ForestSkips(
    kids: map<Option<Id>, seq<Id>>, byId: map<Id, Run>, start: set<Id>, seen: set<Id>, nodes: seq<RunNode>, tops: seq<Id>, span: Id)
    requires Forest(kids, byId, start, seen, nodes, tops)
    ensures Forest(kids, byId, start, seen, nodes, tops + [span])
  {
    hide FollowsParents, ChildrenVisited, Spans, SpansAll, KeepsOrder;
    KeepsMore(Heads(nodes), tops, [span]);
  }

  lemma {:induction false} VisitBounds(kids: map<Option<Id>, seq<Id>>, byId: map<Id, Run>, span: Id, visited: set<Id>, node: Option<RunNode>, seen: set<Id>)
    requires Visit(kids, byId, span, visited, node, seen)
    ensures visited <= seen <= byId.Keys && span in seen
  {
  }

  lemma {:induction false} VisitOver(
    runs: seq<Run>, kids: map<Option<Id>, seq<Id>>, byId: map<Id, Run>, span: Id, list: seq<Id>, children: seq<RunNode>, visited: set<Id>, seen: set<Id>)
    requires Maps(runs, kids, byId) && span in byId && span !in visited && list == Kids(kids, Some(span))
    requires Forest(kids, byId, visited + {span}, seen, children, list) && forall k :: 0 <= k < |list| ==> list[k] in seen
    ensures Visit(kids, byId, span, visited, Some(RunNode(byId[span], children)), seen)
  {
    hide ChildrenVisited, Spans, SpansAll, FollowsParents, Maps, KeepsOrder;
    NodeBuilt(runs, kids, byId, span, children, visited, seen);
  }

  /**
   `build_run_node`: a new span comes back with everything newly reached below it, each
   exactly once; a visited span comes back as nothing.  It ends because every call that
   recurses has visited one more span.
   */
  method BuildRunNode(
    span: Id, byId: map<Id, Run>, kids: map<Option<Id>, seq<Id>>, visited: set<Id>, active: set<Id>, ghost runs: seq<Run>)
    returns (node: Option<RunNode>, seen: set<Id>, stillActive: set<Id>)
    requires Maps(runs, kids, byId) && span in byId && active <= visited <= byId.Keys
    ensures Visit(kids, byId, span, visited, node, seen) && stillActive == active
    decreases |byId.Keys - visited|
  {
    hide *;
    if span in active || span in visited {
      VisitAgain(kids, byId, span, visited);
      return None, visited, active;
    }
    seen := visited + {span};
    stillActive := active + {span};
    ghost var start := seen;
    assert byId.Keys - start < byId.Keys - visited;
    var children: seq<RunNode> := [];
    var list := Kids(kids, Some(span));
    NoForest(kids, byId, start);
    NoneListed(list);
    for i := 0 to |list|
      invariant start <= seen <= byId.Keys && stillActive == active + {span}
      invariant Forest(kids, byId, start, seen, children, list[..i])
      invariant forall k :: 0 <= k < i ==> list[k] in seen
    {
      KidKnown(runs, kids, byId, Some(span), list[i]);
      InList(list, i);
      SmallerSet(byId.Keys - seen, byId.Keys - start);
      var child, next, still := BuildRunNode(list[i], byId, kids, seen, stillActive, runs);
      VisitBounds(kids, byId, list[i], seen, child, next);
      ForestGrows(kids, byId, start, seen, children, list[..i], list[i], child, next);
      children := if child.Some? then children + [child.value] else children;
      seen, stillActive := next, still;
    }
    stillActive := stillActive - {span};
    assert stillActive == active;
    VisitOver(runs, kids, byId, span, list, children, visited, seen);
    node := Some(RunNode(byId[span], children));
  }

  lemma {:induction false} InList(list: seq<Id>, i: nat)
    requires i < |list|
    ensures list[i] in list && list[..i + 1] == list[..i] + [list[i]] && list[..|list|] == list
  {
  }

  lemma {:induction false} NoneListed(list: seq<Id>)
    ensures list[..0] == [] && list[..|list|] == list
  {
  }

  lemma {:induction false} SmallerSet(a: set<Id>, b: set<Id>)
    requires a <= b
    ensures |a| <= |b|
  {
    assert b == a + (b - a);
  }

  lemma {:induction false} VisitedTwice(kids: map<Option<Id>, seq<Id>>, a: set<Id>, b: set<Id>, c: set<Id>)
    requires a <= b <= c && ChildrenVisited(kids, a, b) && ChildrenVisited(kids, b, c)
    ensures ChildrenVisited(kids, a, c)
  {
  }

  lemma {:induction false} NodeBuilt(
    runs: seq<Run>, kids: map<Option<Id>, seq<Id>>, byId: map<Id, Run>, span: Id, children: seq<RunNode>, visited: set<Id>, seen: set<Id>)
    requires Maps(runs, kids, byId) && span in byId && span !in visited && visited + {span} <= seen
    requires SpansAll(children) == multiset(seen - (visited + {span}))
    requires KeepsOrder(Heads(children), Kids(kids, Some(span)))
    requires forall k :: 0 <= k < |children| ==> FollowsParents(children[k], kids, byId)
    requires ChildrenVisited(kids, visited + {span}, seen) && forall kid :: kid in Kids(kids, Some(span)) ==> kid in seen
    ensures byId[span].span == span
    ensures Spans(RunNode(byId[span], children)) == multiset(seen - visited)
    ensures FollowsParents(RunNode(byId[span], children), kids, byId)
    ensures ChildrenVisited(kids, visited, seen)
  {
    VisitedOne(visited, span, seen);
    hide KeepsOrder, Heads;
  }

  // ---- the maps ----

  /** The grouping loop. */
  method GroupByParent(runs: seq<Run>, known: set<Id>) returns (kids: map<Option<Id>, seq<Id>>)
    ensures KidsOf(runs, known, kids)
  {
    kids := map[];
    for i := 0 to |runs|
      invariant KidsOf(runs[..i], known, kids)
    {
      var parent := KnownParent(runs[i], known);
      KidAdded(runs[..i], known, kids, runs[i]);
      assert runs[..i + 1] == runs[..i] + [runs[i]];
      kids := kids[parent := Kids(kids, parent) + [runs[i].span]];
    }
    assert runs[..|runs|] == runs;
  }

  lemma {:induction false} KidAdded(runs: seq<Run>, known: set<Id>, kids: map<Option<Id>, seq<Id>>, run: Run)
    requires KidsOf(runs, known, kids)
    ensures var parent := KnownParent(run, known);
            KidsOf(runs + [run], known, kids[parent := Kids(kids, parent) + [run.span]])
  {
    hide KnownParent;
    var parent := KnownParent(run, known);
    var after := kids[parent := Kids(kids, parent) + [run.span]];
    forall p
      ensures Kids(after, p) == Under(runs + [run], known, p)
    {
      assert (runs + [run])[..|runs|] == runs;
      assert Under(runs, known, p) + [] == Under(runs, known, p);
    }
  }

  method IndexById(runs: seq<Run>) returns (byId: map<Id, Run>)
    ensures ById(runs, byId)
    ensures byId.Keys == set i | 0 <= i < |runs| :: runs[i].span
  {
    byId := map[];
    for i := 0 to |runs|
      invariant ById(runs[..i], byId)
      invariant byId.Keys == set k | 0 <= k < i :: runs[k].span
    {
      NowLast(runs, i, byId);
      byId := byId[runs[i].span := runs[i]];
    }
    assert runs[..|runs|] == runs;
  }

  lemma {:induction false} NowLast(runs: seq<Run>, i: nat, byId: map<Id, Run>)
    requires i < |runs| && ById(runs[..i], byId)
    ensures ById(runs[..i + 1], byId[runs[i].span := runs[i]])
  {
    hide LastRun;
    var before, added := runs[..i], runs[i];
    assert runs[..i + 1] == before + [added];
    NewLast(before, added);
    forall span | span in byId && span != added.span
      ensures LastRun(before + [added], byId[span])
    {
      StillLast(before, byId[span], added);
    }
  }

  lemma {:induction false} NewLast(before: seq<Run>, added: Run)
    ensures LastRun(before + [added], added)
  {
    assert (before + [added])[|before|] == added;
  }

  lemma {:induction false} StillLast(before: seq<Run>, run: Run, added: Run)
    requires LastRun(before, run) && added.span != run.span
    ensures LastRun(before + [added], run)
  {
    var j :| 0 <= j < |before| && before[j] == run && forall k :: j < k < |before| ==> before[k].span != run.span;
    assert (before + [added])[j] == run;
  }

  // ---- the whole tree ----

  /** Some run with span `x` names the known parent `y`; several runs may share a span. */
  ghost predicate StepUp(runs: seq<Run>, known: set<Id>, x: Id, y: Id) {
    exists i :: 0 <= i < |runs| && runs[i].span == x && runs[i].parent == Some(y) && y in known
  }

  /** `y` is reached from `x` by `n` parent pointers. */
  ghost predicate Climbs(runs: seq<Run>, known: set<Id>, x: Id, y: Id, n: nat)
    decreases n
  {
    if n == 0 then x == y else exists z :: StepUp(runs, known, x, z) && Climbs(runs, known, z, y, n - 1)
  }

  ghost predicate NoCycle(runs: seq<Run>, known: set<Id>) {
    forall x, n: nat :: n >= 1 ==> !Climbs(runs, known, x, x, n)
  }

  ghost predicate IsAbove(runs: seq<Run>, known: set<Id>, x: Id, y: Id) {
    exists n: nat :: n >= 1 && Climbs(runs, known, x, y, n)
  }

  /** The known spans properly above `x`. */
  ghost function AllAbove(runs: seq<Run>, known: set<Id>, x: Id): set<Id> {
    set y | y in known && IsAbove(runs, known, x, y)
  }

  lemma {:induction false} ClimbLowersRank(runs: seq<Run>, known: set<Id>, rank: Id -> nat, x: Id, y: Id, n: nat)
    requires Ranked(runs, known, rank) && Climbs(runs, known, x, y, n)
    ensures rank(y) + n <= rank(x)
    decreases n
  {
    if n > 0 {
      var z :| StepUp(runs, known, x, z) && Climbs(runs, known, z, y, n - 1);
      ClimbLowersRank(runs, known, rank, z, y, n - 1);
    }
  }

  lemma {:induction false} FewerAboveParent(runs: seq<Run>, known: set<Id>, x: Id, parent: Id)
    requires NoCycle(runs, known) && StepUp(runs, known, x, parent) && parent in known
    ensures |AllAbove(runs, known, parent)| < |AllAbove(runs, known, x)|
  {
    var above, beyond := AllAbove(runs, known, x), AllAbove(runs, known, parent);
    assert Climbs(runs, known, parent, parent, 0);
    assert Climbs(runs, known, x, parent, 1);
    forall y | y in beyond
      ensures y in above
    {
      var n: nat :| n >= 1 && Climbs(runs, known, parent, y, n);
      assert Climbs(runs, known, x, y, n + 1);
    }
    assert parent in above && parent !in beyond;
    assert above == beyond + (above - beyond);
  }

  /** Parents can be placed nearer the root than their children exactly when no span is its own ancestor. */
  lemma {:induction false} RankedIffNoCycle(runs: seq<Run>, known: set<Id>)
    ensures (exists rank :: Ranked(runs, known, rank)) <==> NoCycle(runs, known)
  {
    if rank :| Ranked(runs, known, rank) {
      forall x, n: nat | n >= 1 && Climbs(runs, known, x, x, n)
        ensures false
      {
        ClimbLowersRank(runs, known, rank, x, x, n);
      }
    }
    if NoCycle(runs, known) {
      ghost var rank := (x: Id) => |AllAbove(runs, known, x)|;
      forall i | 0 <= i < |runs| && KnownParent(runs[i], known).Some?
        ensures rank(runs[i].parent.value) < rank(runs[i].span)
      {
        assert StepUp(runs, known, runs[i].span, runs[i].parent.value);
        FewerAboveParent(runs, known, runs[i].span, runs[i].parent.value);
      }
      assert Ranked(runs, known, rank);
    }
  }

  /** Parents are nearer the root. */
  ghost predicate Ranked(runs: seq<Run>, known: set<Id>, rank: Id -> nat) {
    forall i :: 0 <= i < |runs| && KnownParent(runs[i], known).Some? ==> rank(runs[i].parent.value) < rank(runs[i].span)
  }

  /** Once every run without a known parent is visited, and children of the visited too, ranked pointers leave nothing unvisited. */
  lemma {:induction false} AllReached(
    runs: seq<Run>, kids: map<Option<Id>, seq<Id>>, byId: map<Id, Run>, rank: Id -> nat, seen: set<Id>, i: nat)
    requires Maps(runs, kids, byId) && Ranked(runs, byId.Keys, rank) && i < |runs|
    requires ChildrenVisited(kids, {}, seen) && forall span :: span in Kids(kids, None) ==> span in seen
    ensures runs[i].span in seen
    decreases rank(runs[i].span)
  {
    var parent := KnownParent(runs[i], byId.Keys);
    UnderMembers(runs, byId.Keys, parent, runs[i].span);
    assert ListedUnder(runs, byId.Keys, parent, runs[i].span);
    if parent.Some? {
      var id := parent.value;
      assert id == runs[i].parent.value && id in byId;
      var j := RunOf(runs, byId, id);
      AllReached(runs, kids, byId, rank, seen, j);
      assert id in seen;
    }
  }

  lemma {:induction false} RunOf(runs: seq<Run>, byId: map<Id, Run>, id: Id) returns (j: nat)
    requires ById(runs, byId) && id in byId
    ensures j < |runs| && runs[j].span == id
  {
    assert LastRun(runs, byId[id]);
    j :| 0 <= j < |runs| && runs[j] == byId[id];
  }

  lemma {:induction false} Acyclic(runs: seq<Run>, kids: map<Option<Id>, seq<Id>>, byId: map<Id, Run>, rank: Id -> nat, nodes: seq<RunNode>, seen: set<Id>)
    requires Maps(runs, kids, byId) && Ranked(runs, byId.Keys, rank)
    requires Forest(kids, byId, {}, seen, nodes, Kids(kids, None)) && forall span :: span in Kids(kids, None) ==> span in seen
    ensures seen == byId.Keys
  {
    hide FollowsParents, Spans, SpansAll, KeepsOrder, Ranked, Under, Heads;
    forall span | span in byId
      ensures span in seen
    {
      var i := RunOf(runs, byId, span);
      AllReached(runs, kids, byId, rank, seen, i);
    }
  }

  /** The first pass: every run without a known parent. */
  method RootsFrom(kids: map<Option<Id>, seq<Id>>, byId: map<Id, Run>, ghost runs: seq<Run>)
    returns (roots: seq<RunNode>, visited: set<Id>)
    requires Maps(runs, kids, byId)
    ensures Forest(kids, byId, {}, visited, roots, Kids(kids, None))
    ensures forall span :: span in Kids(kids, None) ==> span in visited
  {
    hide *;
    roots, visited := [], {};
    var active: set<Id> := {};
    var tops := Kids(kids, None);
    NoForest(kids, byId, {});
    NoneListed(tops);
    for i := 0 to |tops|
      invariant visited <= byId.Keys && active == {}
      invariant Forest(kids, byId, {}, visited, roots, tops[..i])
      invariant forall k :: 0 <= k < i ==> tops[k] in visited
    {
      KidKnown(runs, kids, byId, None, tops[i]);
      InList(tops, i);
      var node, seen, still := BuildRunNode(tops[i], byId, kids, visited, active, runs);
      VisitBounds(kids, byId, tops[i], visited, node, seen);
      ForestGrows(kids, byId, {}, visited, roots, tops[..i], tops[i], node, seen);
      roots := if node.Some? then roots + [node.value] else roots;
      visited, active := seen, still;
    }
  }

  function AllSpans(runs: seq<Run>): (spans: seq<Id>)
    ensures |spans| == |runs|
  {
    seq(|runs|, i requires 0 <= i < |runs| => runs[i].span)
  }

  /** The second pass: whatever cycles kept out of reach. */
  method RootsLeft(kids: map<Option<Id>, seq<Id>>, byId: map<Id, Run>, runs: seq<Run>, first: seq<RunNode>, reached: set<Id>)
    returns (roots: seq<RunNode>, visited: set<Id>, ghost more: seq<RunNode>)
    requires Maps(runs, kids, byId) && reached <= byId.Keys
    ensures roots == first + more && Forest(kids, byId, reached, visited, more, AllSpans(runs))
    ensures forall i :: 0 <= i < |runs| ==> runs[i].span in visited
    ensures reached == byId.Keys ==> more == []
  {
    hide *;
    roots, visited, more := first, reached, [];
    var active: set<Id> := {};
    ghost var complete := reached == byId.Keys;
    ghost var spans := AllSpans(runs);
    SpansKnown(runs, kids, byId);
    NoForest(kids, byId, reached);
    NoneListed(spans);
    assert first + [] == first;
    for i := 0 to |runs|
      invariant reached <= visited <= byId.Keys && active == {} && roots == first + more
      invariant Forest(kids, byId, reached, visited, more, spans[..i])
      invariant forall k :: 0 <= k < i ==> runs[k].span in visited
      invariant complete ==> visited == reached && more == []
    {
      InList(spans, i);
      if runs[i].span !in visited {
        assert !complete;
        var node, seen, still := BuildRunNode(runs[i].span, byId, kids, visited, active, runs);
        VisitBounds(kids, byId, runs[i].span, visited, node, seen);
        ForestGrows(kids, byId, reached, visited, more, spans[..i], spans[i], node, seen);
        if node.Some? {
          ThreeParts(first, more, [node.value]);
        }
        more := if node.Some? then more + [node.value] else more;
        roots := if node.Some? then roots + [node.value] else roots;
        visited, active := seen, still;
      } else {
        ForestSkips(kids, byId, reached, visited, more, spans[..i], spans[i]);
      }
    }
  }

  lemma {:induction false} SpansKnown(runs: seq<Run>, kids: map<Option<Id>, seq<Id>>, byId: map<Id, Run>)
    requires Maps(runs, kids, byId)
    ensures forall i :: 0 <= i < |runs| ==> runs[i].span in byId && AllSpans(runs)[i] == runs[i].span
  {
    hide KidsOf;
  }

  lemma {:induction false} SpansJoin(a: seq<RunNode>, b: seq<RunNode>)
    ensures SpansAll(a + b) == SpansAll(a) + SpansAll(b)
  {
    hide *;
    SpansUnfold(a);
    if a == [] {
      assert a + b == b;
    } else {
      SpansUnfold(a + b);
      SpansJoin(a[1..], b);
      assert (a + b)[0] == a[0] && (a + b)[1..] == a[1..] + b;
    }
  }

  lemma {:induction false} SpansUnfold(nodes: seq<RunNode>)
    ensures SpansAll(nodes) == if nodes == [] then multiset{} else Spans(nodes[0]) + SpansAll(nodes[1..])
  {
  }

  // ---- what the tree says about the runs ----

  /** Runs at increasing places have the spans of the nodes and the parent. */
  ghost predicate ChildrenAt(runs: seq<Run>, parent: Id, nodes: seq<RunNode>, at: seq<nat>) {
    && |at| == |nodes| && (forall i, j :: 0 <= i < j < |at| ==> at[i] < at[j])
    && forall k :: 0 <= k < |at| ==> at[k] < |runs| && runs[at[k]].span == nodes[k].run.span && runs[at[k]].parent == Some(parent)
  }

  /** Every node has the last run of its span, and its children are runs that name it as parent, in their order. */
  ghost predicate Hangs(runs: seq<Run>, node: RunNode) {
    && LastRun(runs, node.run)
    && (exists at: seq<nat> :: ChildrenAt(runs, node.run.span, node.children, at))
    && forall i :: 0 <= i < |node.children| ==> Hangs(runs, node.children[i])
  }

  /** A run without a parent among the runs. */
  ghost predicate Parentless(runs: seq<Run>, i: nat)
    requires i < |runs|
  {
    runs[i].parent == None || forall j :: 0 <= j < |runs| ==> runs[j].span != runs[i].parent.value
  }

  ghost predicate TopsAt(runs: seq<Run>, nodes: seq<RunNode>, at: seq<nat>) {
    && |at| == |nodes| && (forall i, j :: 0 <= i < j < |at| ==> at[i] < at[j])
    && forall k :: 0 <= k < |at| ==> at[k] < |runs| && runs[at[k]].span == nodes[k].run.span && Parentless(runs, at[k])
  }

  ghost predicate RestAt(runs: seq<Run>, nodes: seq<RunNode>, at: seq<nat>) {
    && |at| == |nodes| && (forall i, j :: 0 <= i < j < |at| ==> at[i] < at[j])
    && forall k :: 0 <= k < |at| ==> at[k] < |runs| && runs[at[k]].span == nodes[k].run.span
  }

  function SpanSet(runs: seq<Run>): set<Id> {
    set i | 0 <= i < |runs| :: runs[i].span
  }

  /**
   Each span stands in the tree once, its children in the order of the runs.  First come
   the trees of runs without a known parent, then what only cycles reach, both in the order
   of the runs; without a cycle there is nothing of the second kind.
   */
  ghost predicate TreeOf(runs: seq<Run>, roots: seq<RunNode>) {
    && SpansAll(roots) == multiset(SpanSet(runs))
    && (forall k :: 0 <= k < |roots| ==> Hangs(runs, roots[k]))
    && exists first, more :: RootsSplit(runs, roots, first, more)
  }

  ghost predicate RootsSplit(runs: seq<Run>, roots: seq<RunNode>, first: seq<RunNode>, more: seq<RunNode>) {
    && roots == first + more
    && (exists at: seq<nat> :: TopsAt(runs, first, at))
    && (exists at: seq<nat> :: RestAt(runs, more, at))
    && (forall i :: 0 <= i < |runs| && Parentless(runs, i) ==> runs[i].span in SpansAll(first))
    && (NoCycle(runs, SpanSet(runs)) ==> more == [])
  }

  /** Places in the list under a parent are places in the runs. */
  lemma {:induction false} UnderLast(runs: seq<Run>, known: set<Id>, parent: Option<Id>)
    requires runs != []
    ensures var n := |runs| - 1;
            Under(runs, known, parent) == Under(runs[..n], known, parent) + if KnownParent(runs[n], known) == parent then [runs[n].span] else []
  {
  }

  /** Increasing places of the listed spans. */
  ghost predicate PlacesOf(runs: seq<Run>, known: set<Id>, parent: Option<Id>, list: seq<Id>, at: seq<nat>) {
    && |at| == |list| && (forall i, j :: 0 <= i < j < |at| ==> at[i] < at[j])
    && forall k :: 0 <= k < |at| ==> at[k] < |runs| && runs[at[k]].span == list[k] && KnownParent(runs[at[k]], known) == parent
  }

  lemma {:induction false} UnderGrows(runs: seq<Run>, known: set<Id>, parent: Option<Id>, front: seq<nat>, before: seq<Id>)
    requires runs != [] && PlacesOf(runs[..|runs| - 1], known, parent, before, front)
    ensures var n := |runs| - 1;
            if KnownParent(runs[n], known) == parent then PlacesOf(runs, known, parent, before + [runs[n].span], front + [n])
            else PlacesOf(runs, known, parent, before + [], front)
  {
    hide KnownParent;
    var n := |runs| - 1;
    forall k | 0 <= k < |front|
      ensures front[k] < n && runs[front[k]] == runs[..n][front[k]]
    {
    }
  }

  lemma {:induction false} UnderPlaces(runs: seq<Run>, known: set<Id>, parent: Option<Id>) returns (at: seq<nat>)
    ensures PlacesOf(runs, known, parent, Under(runs, known, parent), at)
  {
    hide KnownParent;
    if runs == [] {
      at := [];
      assert Under(runs, known, parent) == [];
    } else {
      var n := |runs| - 1;
      var front := UnderPlaces(runs[..n], known, parent);
      UnderLast(runs, known, parent);
      hide PlacesOf, Under;
      UnderGrows(runs, known, parent, front, Under(runs[..n], known, parent));
      at := if KnownParent(runs[n], known) == parent then front + [n] else front;
    }
  }

  lemma {:induction false} PickedPlaces(runs: seq<Run>, known: set<Id>, parent: Option<Id>, part: seq<Id>) returns (at: seq<nat>)
    requires KeepsOrder(part, Under(runs, known, parent))
    ensures |at| == |part| && (forall i, j :: 0 <= i < j < |at| ==> at[i] < at[j])
    ensures forall k :: 0 <= k < |at| ==> at[k] < |runs| && runs[at[k]].span == part[k] && KnownParent(runs[at[k]], known) == parent
  {
    var list := Under(runs, known, parent);
    var inner: seq<nat> :| StandsIn(part, list, inner);
    var outer := UnderPlaces(runs, known, parent);
    hide KnownParent, Under;
    at := seq(|inner|, i requires 0 <= i < |inner| => outer[inner[i]]);
  }

  lemma {:induction false} HangsIn(runs: seq<Run>, kids: map<Option<Id>, seq<Id>>, byId: map<Id, Run>, node: RunNode)
    requires Maps(runs, kids, byId) && FollowsParents(node, kids, byId)
    ensures Hangs(runs, node)
  {
    var span := node.run.span;
    assert Kids(kids, Some(span)) == Under(runs, byId.Keys, Some(span));
    var at := PickedPlaces(runs, byId.Keys, Some(span), Heads(node.children));
    forall k | 0 <= k < |at|
      ensures runs[at[k]].parent == Some(span)
    {
      assert KnownParent(runs[at[k]], byId.Keys) == Some(span);
    }
    assert ChildrenAt(runs, span, node.children, at);
    assert LastRun(runs, node.run);
    hide ChildrenAt, LastRun, KeepsOrder, Under, KnownParent;
    forall i | 0 <= i < |node.children|
      ensures Hangs(runs, node.children[i])
    {
      HangsIn(runs, kids, byId, node.children[i]);
    }
  }

  lemma {:induction false} KnownSpans(runs: seq<Run>, byId: map<Id, Run>)
    requires ById(runs, byId)
    ensures byId.Keys == SpanSet(runs)
  {
    forall span | span in byId
      ensures span in SpanSet(runs)
    {
      var j := RunOf(runs, byId, span);
    }
  }

  lemma {:induction false} ParentlessIs(runs: seq<Run>, known: set<Id>, i: nat)
    requires known == SpanSet(runs) && i < |runs|
    ensures KnownParent(runs[i], known) == None <==> Parentless(runs, i)
  {
  }

  /** The first pass in terms of the runs. */
  lemma {:induction false} FirstTops(
    runs: seq<Run>, kids: map<Option<Id>, seq<Id>>, byId: map<Id, Run>, first: seq<RunNode>, reached: set<Id>)
    requires Maps(runs, kids, byId) && Forest(kids, byId, {}, reached, first, Kids(kids, None))
    requires forall span :: span in Kids(kids, None) ==> span in reached
    ensures exists at: seq<nat> :: TopsAt(runs, first, at)
    ensures forall i :: 0 <= i < |runs| && Parentless(runs, i) ==> runs[i].span in SpansAll(first)
  {
    hide FollowsParents, ChildrenVisited, SpansAll, Under, LastRun, KeepsOrder;
    KnownSpans(runs, byId);
    var at := PickedPlaces(runs, byId.Keys, None, Heads(first));
    forall k | 0 <= k < |at|
      ensures Parentless(runs, at[k])
    {
      ParentlessIs(runs, byId.Keys, at[k]);
    }
    assert TopsAt(runs, first, at);
    forall i | 0 <= i < |runs| && Parentless(runs, i)
      ensures runs[i].span in SpansAll(first)
    {
      ParentlessIs(runs, byId.Keys, i);
      UnderMembers(runs, byId.Keys, None, runs[i].span);
      assert ListedUnder(runs, byId.Keys, None, runs[i].span);
      assert runs[i].span in multiset(reached - {});
    }
  }

  lemma {:induction false} MoreRest(
    runs: seq<Run>, kids: map<Option<Id>, seq<Id>>, byId: map<Id, Run>, more: seq<RunNode>, reached: set<Id>, visited: set<Id>)
    requires Forest(kids, byId, reached, visited, more, AllSpans(runs))
    ensures exists at: seq<nat> :: RestAt(runs, more, at)
  {
    hide FollowsParents, ChildrenVisited, SpansAll;
    var at: seq<nat> :| StandsIn(Heads(more), AllSpans(runs), at);
    assert RestAt(runs, more, at);
  }

  lemma {:induction false} AllPlaced(
    runs: seq<Run>, kids: map<Option<Id>, seq<Id>>, byId: map<Id, Run>,
    first: seq<RunNode>, more: seq<RunNode>, reached: set<Id>, visited: set<Id>)
    requires Maps(runs, kids, byId) && Forest(kids, byId, {}, reached, first, Kids(kids, None))
    requires Forest(kids, byId, reached, visited, more, AllSpans(runs))
    requires forall i :: 0 <= i < |runs| ==> runs[i].span in visited
    ensures SpansAll(first + more) == multiset(SpanSet(runs))
    ensures forall k :: 0 <= k < |first + more| ==> Hangs(runs, (first + more)[k])
  {
    hide ChildrenVisited, Spans, SpansAll, FollowsParents, Hangs, KeepsOrder, Under, LastRun, Heads;
    SpansJoin(first, more);
    KnownSpans(runs, byId);
    assert visited == byId.Keys && visited - {} == visited;
    VisitedSplit({}, reached, visited);
    forall k | 0 <= k < |first + more|
      ensures Hangs(runs, (first + more)[k])
    {
      HangsIn(runs, kids, byId, (first + more)[k]);
    }
  }

  lemma {:induction false} NowATree(runs: seq<Run>, roots: seq<RunNode>, first: seq<RunNode>, more: seq<RunNode>)
    requires SpansAll(roots) == multiset(SpanSet(runs)) && forall k :: 0 <= k < |roots| ==> Hangs(runs, roots[k])
    requires RootsSplit(runs, roots, first, more)
    ensures TreeOf(runs, roots)
  {
    hide RootsSplit, Hangs, SpansAll;
  }

  /** `trace_tree_from_runs`, for any runs, repeated spans and parent cycles included. */
  method TraceTreeFromRuns(runs: seq<Run>) returns (roots: seq<RunNode>)
    ensures TreeOf(runs, roots)
  {
    var byId := IndexById(runs);
    var kids := GroupByParent(runs, byId.Keys);
    assert Maps(runs, kids, byId);
    hide *;
    var first, reached := RootsFrom(kids, byId, runs);
    KnownSpans(runs, byId);
    RankedIffNoCycle(runs, byId.Keys);
    if rank :| Ranked(runs, byId.Keys, rank) {
      Acyclic(runs, kids, byId, rank, first, reached);
    }
    FirstTops(runs, kids, byId, first, reached);
    var visited;
    ghost var more;
    ForestBounds(kids, byId, first, reached, Kids(kids, None));
    roots, visited, more := RootsLeft(kids, byId, runs, first, reached);
    MoreRest(runs, kids, byId, more, reached, visited);
    AllPlaced(runs, kids, byId, first, more, reached, visited);
    SplitHolds(runs, roots, first, more);
    NowATree(runs, roots, first, more);
  }

  lemma {:induction false} ForestBounds(kids: map<Option<Id>, seq<Id>>, byId: map<Id, Run>, nodes: seq<RunNode>, seen: set<Id>, tops: seq<Id>)
    requires Forest(kids, byId, {}, seen, nodes, tops)
    ensures seen <= byId.Keys
  {
    hide ChildrenVisited, Spans, SpansAll, FollowsParents, KeepsOrder;
  }

  lemma {:induction false} SplitHolds(runs: seq<Run>, roots: seq<RunNode>, first: seq<RunNode>, more: seq<RunNode>)
    requires roots == first + more
    requires exists at: seq<nat> :: TopsAt(runs, first, at)
    requires exists at: seq<nat> :: RestAt(runs, more, at)
    requires forall i :: 0 <= i < |runs| && Parentless(runs, i) ==> runs[i].span in SpansAll(first)
    requires NoCycle(runs, SpanSet(runs)) ==> more == []
    ensures RootsSplit(runs, roots, first, more)
  {
    hide TopsAt, RestAt, Parentless, NoCycle, SpansAll;
  }
}
