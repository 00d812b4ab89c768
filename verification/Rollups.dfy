/**
 Hourly rollups that stand in for scans: stored per project, kind and bucket, and selected
 by bucket start instead of run start (src/ingest/indexes.rs,
 src/query/aggregates/rollups.rs).
 */
module Rollups {
  import opened Wrappers
  import opened Ordering
  import Aggregates

  type Float = Aggregates.Float

  const BUCKET: int := 3_600_000_000_000
  const I64_MAX: int := 0x7FFF_FFFF_FFFF_FFFF

  /** A live run: its head is not deleted. */
  datatype Run = Run(project: string, runType: string, status: string, start: int, latency: int, model: Option<string>)

  datatype Kind = ProjectKind | RunTypeKind | ModelKind | ErrorKind

  const KINDS: seq<Kind> := [ProjectKind, RunTypeKind, ModelKind, ErrorKind]

  datatype RollupKey = RollupKey(project: string, kind: Kind, bucket: int, value: string)

  /** The stored columns that a scan can be compared with. */
  datatype Row = Row(count: nat, errors: nat, minLatency: int, maxLatency: int, p50: int, p95: int, p99: int)

  function BucketOf(start: int): int {
    start / BUCKET * BUCKET
  }

  function IsError(r: Run): bool {
    r.status == "error"
  }

  function ValueOf(kind: Kind, r: Run): string {
    match kind
    case ProjectKind => r.project
    case RunTypeKind => r.runType
    case ModelKind => if r.model.Some? then r.model.value else "unknown"
    case ErrorKind => if IsError(r) then "true" else "false"
  }

  function KeyOf(kind: Kind, r: Run): RollupKey {
    RollupKey(r.project, kind, BucketOf(r.start), ValueOf(kind, r))
  }

  // ---- storing ----

  datatype Accumulator = Accumulator(count: nat, errors: nat, latencies: seq<int>)

  const NOTHING: Accumulator := Accumulator(0, 0, [])

  function Pushed(acc: Accumulator, r: Run): Accumulator {
    Accumulator(acc.count + 1, acc.errors + (if IsError(r) then 1 else 0), acc.latencies + [r.latency])
  }

  function AccumulatorOf(runs: seq<Run>): (acc: Accumulator)
    ensures acc.count == |runs| == |acc.latencies|
  {
    if runs == [] then NOTHING else Pushed(AccumulatorOf(runs[..|runs| - 1]), runs[|runs| - 1])
  }

  predicate IntLeq(a: int, b: int) {
    a <= b
  }

  function SortInts(values: seq<int>): (sorted: seq<int>)
    ensures |sorted| == |values|
  {
    SortByCorrect(values, IntLeq);
    SortBy(values, IntLeq)
  }

  /** `RollupAccumulator::finish`. */
  function Finished(acc: Accumulator): Row
    requires acc.latencies != []
  {
    var sorted := SortInts(acc.latencies);
    var n := |sorted|;
    Row(acc.count, acc.errors, sorted[0], sorted[n - 1],
        sorted[Aggregates.PercentileIndex(n, 50)], sorted[Aggregates.PercentileIndex(n, 95)], sorted[Aggregates.PercentileIndex(n, 99)])
  }

  /** The runs that satisfy a test, in order. */
  function Where(runs: seq<Run>, test: Run -> bool): seq<Run> {
    if runs == [] then []
    else
      var front := Where(runs[..|runs| - 1], test);
      if test(runs[|runs| - 1]) then front + [runs[|runs| - 1]] else front
  }

  function HasKey(kind: Kind, key: RollupKey): Run -> bool {
    (r: Run) => KeyOf(kind, r) == key
  }

  function KeysOf(kind: Kind, runs: seq<Run>): set<RollupKey> {
    set r | r in runs :: KeyOf(kind, r)
  }

  lemma {:induction false} WhereMembers(runs: seq<Run>, test: Run -> bool, r: Run)
    ensures r in Where(runs, test) <==> r in runs && test(r)
  {
    if runs != [] {
      var n := |runs| - 1;
      WhereMembers(runs[..n], test, r);
      assert runs == runs[..n] + [runs[n]];
    }
  }

  lemma {:induction false} WhereSame(runs: seq<Run>, a: Run -> bool, b: Run -> bool)
    requires forall r :: r in runs ==> a(r) == b(r)
    ensures Where(runs, a) == Where(runs, b)
  {
    if runs != [] {
      var n := |runs| - 1;
      assert forall r :: r in runs[..n] ==> r in runs;
      WhereSame(runs[..n], a, b);
    }
  }

  lemma {:induction false} WhereTwice(runs: seq<Run>, a: Run -> bool, b: Run -> bool)
    ensures Where(Where(runs, a), b) == Where(runs, (r: Run) => a(r) && b(r))
  {
    if runs != [] {
      var n := |runs| - 1;
      var front, last := runs[..n], runs[n];
      WhereTwice(front, a, b);
      if a(last) {
        assert (Where(front, a) + [last])[..|Where(front, a)|] == Where(front, a);
      }
    }
  }

  /** The stored rows of one kind. */
  function RowsOfKind(runs: seq<Run>, kind: Kind): map<RollupKey, Row> {
    map key | key in KeysOf(kind, runs) :: RowOf(runs, kind, key)
  }

  function RowOf(runs: seq<Run>, kind: Kind, key: RollupKey): Row {
    var group := Where(runs, HasKey(kind, key));
    if group == [] then Row(0, 0, 0, 0, 0, 0, 0) else Finished(AccumulatorOf(group))
  }

  /** The grouping loop for one kind. */
  method GroupRuns(runs: seq<Run>, kind: Kind) returns (groups: map<RollupKey, Accumulator>)
    ensures groups.Keys == KeysOf(kind, runs)
    ensures forall key :: key in groups ==> groups[key] == AccumulatorOf(Where(runs, HasKey(kind, key)))
  {
    groups := map[];
    for i := 0 to |runs|
      invariant groups.Keys == KeysOf(kind, runs[..i])
      invariant forall key :: key in groups ==> groups[key] == AccumulatorOf(Where(runs[..i], HasKey(kind, key)))
    {
      var key := KeyOf(kind, runs[i]);
      GroupStep(runs, i, kind, groups);
      groups := groups[key := Pushed(if key in groups then groups[key] else NOTHING, runs[i])];
    }
    assert runs[..|runs|] == runs;
  }

  lemma {:induction false} GroupStep(runs: seq<Run>, i: nat, kind: Kind, groups: map<RollupKey, Accumulator>)
    requires i < |runs| && groups.Keys == KeysOf(kind, runs[..i])
    requires forall key :: key in groups ==> groups[key] == AccumulatorOf(Where(runs[..i], HasKey(kind, key)))
    ensures KeysOf(kind, runs[..i + 1]) == KeysOf(kind, runs[..i]) + {KeyOf(kind, runs[i])}
    ensures var key := KeyOf(kind, runs[i]);
            var after := groups[key := Pushed(if key in groups then groups[key] else NOTHING, runs[i])];
            forall k :: k in after ==> after[k] == AccumulatorOf(Where(runs[..i + 1], HasKey(kind, k)))
  {
    var r, key := runs[i], KeyOf(kind, runs[i]);
    var after := groups[key := Pushed(if key in groups then groups[key] else NOTHING, r)];
    assert runs[..i + 1] == runs[..i] + [r];
    forall k | k in after
      ensures after[k] == AccumulatorOf(Where(runs[..i + 1], HasKey(kind, k)))
    {
      OneMoreRun(runs, i, kind, k);
      if k == key && key !in groups {
        NoneWithKey(runs[..i], kind, key);
      }
    }
  }

  lemma {:induction false} OneMoreRun(runs: seq<Run>, i: nat, kind: Kind, key: RollupKey)
    requires i < |runs|
    ensures AccumulatorOf(Where(runs[..i + 1], HasKey(kind, key)))
         == var before := AccumulatorOf(Where(runs[..i], HasKey(kind, key)));
            if KeyOf(kind, runs[i]) == key then Pushed(before, runs[i]) else before
    ensures AccumulatorOf([]) == NOTHING
  {
    var before := Where(runs[..i], HasKey(kind, key));
    assert runs[..i + 1][..i] == runs[..i];
    assert (before + [runs[i]])[..|before|] == before;
    hide Pushed, KeyOf;
  }

  lemma {:induction false} NoneWithKey(runs: seq<Run>, kind: Kind, key: RollupKey)
    requires key !in KeysOf(kind, runs)
    ensures Where(runs, HasKey(kind, key)) == []
  {
    var group := Where(runs, HasKey(kind, key));
    if group != [] {
      WhereMembers(runs, HasKey(kind, key), group[0]);
    }
  }

  lemma {:induction false} SomeWithKey(runs: seq<Run>, kind: Kind, key: RollupKey)
    requires key in KeysOf(kind, runs)
    ensures Where(runs, HasKey(kind, key)) != []
  {
    var r :| r in runs && KeyOf(kind, r) == key;
    WhereMembers(runs, HasKey(kind, key), r);
  }

  /** The `run_metric_rollups` table. */
  class RollupTable {
    var rows: map<RollupKey, Row>

    constructor ()
      ensures rows == map[]
    {
      rows := map[];
    }

    /** `refresh_project_aggregate_rollups`: the project's rows are deleted and rebuilt from its live runs, kind by kind. */
    method Refresh(project: string, runs: seq<Run>)
      requires forall r :: r in runs ==> r.project == project
      modifies this
      ensures rows == Without(old(rows), project) + AllRows(runs, |KINDS|)
    {
      rows := Without(rows, project);
      ghost var kept := rows;
      NoRowsYet(kept, runs);
      hide *;
      for k := 0 to |KINDS|
        invariant rows == kept + AllRows(runs, k)
      {
        var finished := FinishKind(runs, KINDS[k]);
        KindDone(kept, runs, k);
        rows := rows + finished;
      }
    }
  }

  /** One kind's groups, finished. */
  method FinishKind(runs: seq<Run>, kind: Kind) returns (finished: map<RollupKey, Row>)
    ensures finished == RowsOfKind(runs, kind)
  {
    var groups := GroupRuns(runs, kind);
    hide Where, Finished, AccumulatorOf;
    forall key | key in groups
      ensures groups[key].latencies != [] && Finished(groups[key]) == RowOf(runs, kind, key)
    {
      SomeWithKey(runs, kind, key);
    }
    finished := map key | key in groups :: Finished(groups[key]);
  }

  lemma {:induction false} NoRowsYet(kept: map<RollupKey, Row>, runs: seq<Run>)
    ensures kept + AllRows(runs, 0) == kept
  {
  }

  lemma {:induction false} KindDone(kept: map<RollupKey, Row>, runs: seq<Run>, k: nat)
    requires k < |KINDS|
    ensures kept + AllRows(runs, k + 1) == (kept + AllRows(runs, k)) + RowsOfKind(runs, KINDS[k])
  {
    hide RowsOfKind;
    Associates(kept, AllRows(runs, k), RowsOfKind(runs, KINDS[k]));
  }

  lemma {:induction false} Associates(a: map<RollupKey, Row>, b: map<RollupKey, Row>, c: map<RollupKey, Row>)
    ensures a + (b + c) == (a + b) + c
  {
  }

  function Without(rows: map<RollupKey, Row>, project: string): map<RollupKey, Row> {
    map key | key in rows && key.project != project :: rows[key]
  }

  /** The rows of the first `n` kinds. */
  function AllRows(runs: seq<Run>, n: nat): map<RollupKey, Row>
    requires n <= |KINDS|
  {
    if n == 0 then map[] else AllRows(runs, n - 1) + RowsOfKind(runs, KINDS[n - 1])
  }

  // ---- what the table holds ----

  /** Row `key` is the rollup of the live runs it names, and there is one exactly when there are such runs. */
  ghost predicate Fresh(rows: map<RollupKey, Row>, live: seq<Run>, project: string) {
    forall key: RollupKey :: key.project == project ==>
      && (key in rows <==> key in KeysOf(key.kind, live))
      && (key in rows ==> rows[key] == RowOf(live, key.kind, key))
  }

  function OfProject(project: string): Run -> bool {
    (r: Run) => r.project == project
  }

  lemma {:induction false} KindHolds(runs: seq<Run>, kind: Kind, key: RollupKey)
    ensures key in RowsOfKind(runs, kind) <==> key.kind == kind && key in KeysOf(key.kind, runs)
    ensures key in RowsOfKind(runs, kind) ==> RowsOfKind(runs, kind)[key] == RowOf(runs, key.kind, key)
  {
    hide RowOf;
  }

  lemma {:induction false} AllRowsHold(runs: seq<Run>, n: nat, key: RollupKey)
    requires n <= |KINDS|
    ensures key in AllRows(runs, n) <==> key.kind in KINDS[..n] && key in KeysOf(key.kind, runs)
    ensures key in AllRows(runs, n) ==> AllRows(runs, n)[key] == RowOf(runs, key.kind, key)
  {
    if n > 0 {
      KindsSoFar(n);
      KindHolds(runs, KINDS[n - 1], key);
      hide RowOf, RowsOfKind, KeysOf, KINDS;
      AllRowsHold(runs, n - 1, key);
    }
  }

  lemma {:induction false} KindsSoFar(n: nat)
    requires 0 < n <= |KINDS|
    ensures KINDS[..n] == KINDS[..n - 1] + [KINDS[n - 1]]
  {
  }

  /** Only a project's own runs are in its groups. */
  lemma {:induction false} ProjectGroups(live: seq<Run>, project: string, key: RollupKey)
    requires key.project == project
    ensures key in KeysOf(key.kind, Where(live, OfProject(project))) <==> key in KeysOf(key.kind, live)
    ensures RowOf(Where(live, OfProject(project)), key.kind, key) == RowOf(live, key.kind, key)
  {
    var mine := Where(live, OfProject(project));
    forall r
      ensures r in mine <==> r in live && r.project == project
    {
      WhereMembers(live, OfProject(project), r);
    }
    WhereTwice(live, OfProject(project), HasKey(key.kind, key));
    WhereSame(live, (r: Run) => OfProject(project)(r) && HasKey(key.kind, key)(r), HasKey(key.kind, key));
  }

  /** A refresh leaves the project's rows fresh and the others as they were. */
  lemma {:induction false} RefreshedIsFresh(before: map<RollupKey, Row>, live: seq<Run>, project: string)
    ensures var after := Without(before, project) + AllRows(Where(live, OfProject(project)), |KINDS|);
            && Fresh(after, live, project)
            && forall key: RollupKey :: key.project != project ==>
                 (key in after <==> key in before) && (key in before ==> after[key] == before[key])
  {
    var mine := Where(live, OfProject(project));
    var after := Without(before, project) + AllRows(mine, |KINDS|);
    hide RowOf, AllRows;
    forall key: RollupKey
      ensures key.project == project ==>
        (key in after <==> key in KeysOf(key.kind, live)) && (key in after ==> after[key] == RowOf(live, key.kind, key))
      ensures key.project != project ==> (key in after <==> key in before) && (key in before ==> after[key] == before[key])
    {
      AllRowsHold(mine, |KINDS|, key);
      assert KINDS[..|KINDS|] == KINDS;
      assert key.kind == KINDS[0] || key.kind == KINDS[1] || key.kind == KINDS[2] || key.kind == KINDS[3];
      if key.project == project {
        ProjectGroups(live, project, key);
      } else {
        OthersElsewhere(live, project, key);
      }
    }
  }

  lemma {:induction false} OthersElsewhere(live: seq<Run>, project: string, key: RollupKey)
    requires key.project != project
    ensures key !in KeysOf(key.kind, Where(live, OfProject(project)))
  {
    forall r | r in Where(live, OfProject(project))
      ensures r.project == project
    {
      WhereMembers(live, OfProject(project), r);
    }
  }

  // ---- queries ----

  /** `otherFilters`: a run, trace or tree filter, or deleted runs asked for. */
  datatype Query = Query(
    projects: set<string>, kind: Kind, bucketNanos: Option<int>, minStart: Option<int>, maxStart: Option<int>,
    runType: Option<string>, error: Option<bool>, otherFilters: bool)

  predicate FiltersExact(q: Query) {
    match q.kind
    case RunTypeKind => q.error.None?
    case ErrorKind => q.runType.None?
    case _ => q.runType.None? && q.error.None?
  }

  /** `time_filters_cover_whole_rollup_buckets`. */
  predicate TimesCoverBuckets(q: Query) {
    && (q.minStart.Some? ==> q.minStart.value % BUCKET == 0)
    && (q.maxStart.Some? ==> q.maxStart.value < I64_MAX && (q.maxStart.value + 1) % BUCKET == 0)
  }

  /** `rollup_eligible`. */
  predicate Eligible(q: Query) {
    !q.otherFilters && q.bucketNanos == Some(BUCKET) && FiltersExact(q) && TimesCoverBuckets(q)
  }

  /** The `WHERE` clause of `rollup_sql`. */
  predicate Selected(q: Query, key: RollupKey) {
    && key.project in q.projects && key.kind == q.kind
    && (q.minStart.Some? ==> key.bucket >= q.minStart.value)
    && (q.maxStart.Some? ==> key.bucket <= q.maxStart.value)
    && (q.runType.Some? && q.kind == RunTypeKind ==> key.value == q.runType.value)
    && (q.error.Some? && q.kind == ErrorKind ==> key.value == if q.error.value then "true" else "false")
  }

  /** The `WHERE` clause of a scan. */
  predicate Scanned(q: Query, r: Run) {
    && r.project in q.projects
    && (q.minStart.Some? ==> r.start >= q.minStart.value)
    && (q.maxStart.Some? ==> r.start <= q.maxStart.value)
    && (q.runType.Some? ==> r.runType == q.runType.value)
    && (q.error.Some? ==> IsError(r) == q.error.value)
  }

  /** The group a scan puts a run in. */
  function ScanKey(q: Query, r: Run): RollupKey {
    RollupKey(r.project, q.kind, Aggregates.TimeBucket(r.start, q.bucketNanos), ValueOf(q.kind, r))
  }

  datatype OutRow = OutRow(count: nat, errors: nat, errorRate: Float, min: Float, max: Float, p50: Float, p95: Float, p99: Float)

  /** `run_rollup_row`; `conv` is the conversion of a stored integer to a float. */
  function RollupOut(row: Row, arith: Aggregates.Arithmetic, conv: int -> Float): OutRow {
    OutRow(row.count, row.errors, if row.count == 0 then arith.zero else arith.ratio(row.errors, row.count),
           conv(row.minLatency), conv(row.maxLatency), conv(row.p50), conv(row.p95), conv(row.p99))
  }

  /** The columns read back are those of a scan's metrics. */
  predicate ReadsBack(row: OutRow, m: Aggregates.Metrics) {
    && row.count == m.count && row.errors == m.errors && row.errorRate == m.errorRate
    && m.latency.Some? && row.min == m.latency.value.min && row.max == m.latency.value.max
    && m.latency.value.p50 == Some(row.p50) && m.latency.value.p95 == Some(row.p95) && m.latency.value.p99 == Some(row.p99)
  }

  /** `rollup_kind`: the groupings there are rollups for, in any order. */
  function RollupKind(groupBy: seq<Aggregates.GroupBy>): Option<Kind> {
    var groups := set g | g in groupBy;
    if groups == {Aggregates.ByProject, Aggregates.ByTimeBucket} then Some(ProjectKind)
    else if groups == {Aggregates.ByProject, Aggregates.ByTimeBucket, Aggregates.ByRunType} then Some(RunTypeKind)
    else if groups == {Aggregates.ByProject, Aggregates.ByTimeBucket, Aggregates.ByModel} then Some(ModelKind)
    else if groups == {Aggregates.ByProject, Aggregates.ByTimeBucket, Aggregates.ByError} then Some(ErrorKind)
    else None
  }

  /** The group a rollup row stands for, as `run_rollup_row` names it. */
  function GroupOf(key: RollupKey): Aggregates.Group {
    var values := map[Aggregates.ByProject := Aggregates.Text(key.project), Aggregates.ByTimeBucket := Aggregates.BucketStart(key.bucket)];
    Aggregates.Group(
      match key.kind
      case ProjectKind => values
      case RunTypeKind => values[Aggregates.ByRunType := Aggregates.Text(key.value)]
      case ModelKind => values[Aggregates.ByModel := Aggregates.Text(key.value)]
      case ErrorKind => values[Aggregates.ByError := Aggregates.Flag(key.value == "true")])
  }

  /** The scan's row of a run: the same columns, the latency converted; whatever else it holds. */
  predicate Shows(row: Aggregates.Row, r: Run, conv: int -> Float) {
    && row.key.project == r.project && row.start == r.start && row.runType == r.runType
    && row.model == r.model && row.status == r.status && row.latency == conv(r.latency)
  }

  predicate AllShow(rows: seq<Aggregates.Row>, live: seq<Run>, conv: int -> Float) {
    |rows| == |live| && forall i :: 0 <= i < |rows| ==> Shows(rows[i], live[i], conv)
  }

  /** The rows of the runs that pass the `WHERE` clause. */
  function ScanRows(rows: seq<Aggregates.Row>, live: seq<Run>, q: Query): seq<Aggregates.Row>
    requires |rows| == |live|
  {
    if live == [] then []
    else
      var n := |live| - 1;
      ScanRows(rows[..n], live[..n], q) + (if Scanned(q, live[n]) then [rows[n]] else [])
  }

  function ScanQuery(q: Query, groupBy: seq<Aggregates.GroupBy>, feedbackKeys: seq<string>): Aggregates.Query {
    Aggregates.Query(groupBy, q.bucketNanos, feedbackKeys)
  }

  function InGroup(q: Query, key: RollupKey): Run -> bool {
    (r: Run) => Scanned(q, r) && ScanKey(q, r) == key
  }

  function ScanKeys(live: seq<Run>, q: Query): set<RollupKey> {
    set r | r in live && Scanned(q, r) :: ScanKey(q, r)
  }

  // ---- buckets ----

  /** A bucket holds the times from its start up to the next bucket. */
  lemma {:induction false} BucketHolds(start: int)
    ensures BucketOf(start) <= start < BucketOf(start) + BUCKET && BucketOf(start) % BUCKET == 0
  {
  }

  /** At bucket boundaries, comparing bucket starts is comparing run starts. */
  lemma {:induction false} BoundariesAgree(q: Query, start: int)
    requires TimesCoverBuckets(q)
    ensures q.minStart.Some? ==> (BucketOf(start) >= q.minStart.value <==> start >= q.minStart.value)
    ensures q.maxStart.Some? ==> (BucketOf(start) <= q.maxStart.value <==> start <= q.maxStart.value)
  {
    BucketHolds(start);
    var b := start / BUCKET;
    if q.minStart.Some? {
      var m := q.minStart.value / BUCKET;
      assert q.minStart.value == m * BUCKET;
    }
    if q.maxStart.Some? {
      var m := (q.maxStart.value + 1) / BUCKET;
      assert q.maxStart.value + 1 == m * BUCKET;
    }
  }

  /** A run passes the scan exactly when its rollup row is selected. */
  lemma {:induction false} RunAgrees(q: Query, r: Run)
    requires Eligible(q)
    ensures ScanKey(q, r) == KeyOf(q.kind, r)
    ensures Scanned(q, r) <==> Selected(q, KeyOf(q.kind, r))
  {
    BoundariesAgree(q, r.start);
    TrueIsNotFalse();
    hide BucketOf;
    assert Aggregates.TimeBucket(r.start, q.bucketNanos) == BucketOf(r.start) by { SameBucket(r.start); }
  }

  lemma {:induction false} SameBucket(start: int)
    ensures Aggregates.TimeBucket(start, Some(BUCKET)) == BucketOf(start)
  {
  }

  lemma {:induction false} TrueIsNotFalse()
    ensures "true" != "false"
  {
    assert |"true"| == 4 && |"false"| == 5;
  }

  // ---- sorting before or after converting ----

  ghost predicate Monotone(conv: int -> Float) {
    forall a: int, b: int :: a <= b ==> conv(a) <= conv(b)
  }

  function Converted(values: seq<int>, conv: int -> Float): (floats: seq<Float>)
    ensures |floats| == |values|
  {
    seq(|values|, i requires 0 <= i < |values| => conv(values[i]))
  }

  lemma {:induction false} ConvertedPermuted(a: seq<int>, b: seq<int>, conv: int -> Float)
    requires multiset(a) == multiset(b)
    ensures multiset(Converted(a, conv)) == multiset(Converted(b, conv))
  {
    if a == [] {
      assert |multiset(b)| == 0;
      assert b == [];
    } else {
      var i := RemoveFirst(a, b);
      var rest := b[..i] + b[i + 1..];
      ConvertedPermuted(a[1..], rest, conv);
      assert Converted(a, conv) == [conv(a[0])] + Converted(a[1..], conv);
      assert Converted(b, conv) == Converted(b[..i], conv) + [conv(b[i])] + Converted(b[i + 1..], conv);
      assert Converted(rest, conv) == Converted(b[..i], conv) + Converted(b[i + 1..], conv);
    }
  }

  /** Converting sorted integers is sorting converted ones, rounding or not. */
  lemma {:induction false} SortConverts(values: seq<int>, conv: int -> Float)
    requires Monotone(conv)
    ensures Aggregates.SortFloats(Converted(values, conv)) == Converted(SortInts(values), conv)
  {
    var sorted := SortInts(values);
    Aggregates.FloatLeqTotal();
    IntLeqTotal();
    SortByCorrect(values, IntLeq);
    SortByCorrect(Converted(values, conv), Aggregates.FloatLeq);
    ConvertedPermuted(values, sorted, conv);
    forall i, j | 0 <= i < j < |sorted|
      ensures Aggregates.FloatLeq(Converted(sorted, conv)[i], Converted(sorted, conv)[j])
    {
      assert IntLeq(sorted[i], sorted[j]);
    }
    SortedUnique(Converted(sorted, conv), Aggregates.SortFloats(Converted(values, conv)), Aggregates.FloatLeq);
  }

  lemma {:induction false} IntLeqTotal()
    ensures TotalPreorder(IntLeq)
  {
  }

  // ---- the scan's groups ----

  /** What a run contributes to a group's value under one grouping. */
  function GroupValueOf(by_: Aggregates.GroupBy, row: Aggregates.Row, bucketNanos: Option<int>): Aggregates.GroupValue {
    match by_
    case ByTimeBucket => Aggregates.BucketStart(Aggregates.TimeBucket(row.start, bucketNanos))
    case ByRunType => Aggregates.Text(row.runType)
    case ByModel => Aggregates.Text(Aggregates.OrUnknown(row.model))
    case ByError => Aggregates.Flag(row.status == "error")
    case _ => Aggregates.Text(row.key.project)
  }

  predicate Plain(by_: Aggregates.GroupBy) {
    by_ == Aggregates.ByProject || by_ == Aggregates.ByTimeBucket || by_ == Aggregates.ByRunType || by_ == Aggregates.ByModel || by_ == Aggregates.ByError
  }

  /** A plain grouping leaves one variant, with one value more. */
  lemma {:induction false} ExpandPlain(v: Aggregates.Variant, by_: Aggregates.GroupBy, row: Aggregates.Row, aq: Aggregates.Query, context: Aggregates.Context)
    requires Plain(by_)
    ensures Aggregates.Expand([v], by_, row, aq, context) == [v.(group := Aggregates.With(v.group, by_, GroupValueOf(by_, row, aq.bucketNanos)))]
  {
    var value := GroupValueOf(by_, row, aq.bucketNanos);
    assert [v][1..] == [];
    assert Aggregates.AppendValues([v], by_, [value]) == [v.(group := Aggregates.With(v.group, by_, value))];
  }

  function GroupValues(groupBy: seq<Aggregates.GroupBy>, row: Aggregates.Row, bucketNanos: Option<int>): map<Aggregates.GroupBy, Aggregates.GroupValue> {
    map g | g in groupBy :: GroupValueOf(g, row, bucketNanos)
  }

  lemma {:induction false} FirstGroupValue(
    values: map<Aggregates.GroupBy, Aggregates.GroupValue>, g: Aggregates.GroupBy, others: seq<Aggregates.GroupBy>, row: Aggregates.Row, bucketNanos: Option<int>)
    ensures values[g := GroupValueOf(g, row, bucketNanos)] + GroupValues(others, row, bucketNanos) == values + GroupValues([g] + others, row, bucketNanos)
  {
    hide GroupValueOf;
  }

  lemma {:induction false} NoGroupValues(values: map<Aggregates.GroupBy, Aggregates.GroupValue>, row: Aggregates.Row, bucketNanos: Option<int>)
    ensures values + GroupValues([], row, bucketNanos) == values
  {
  }

  lemma {:induction false} ExpandAllPlain(
    v: Aggregates.Variant, groupBy: seq<Aggregates.GroupBy>, row: Aggregates.Row, aq: Aggregates.Query, context: Aggregates.Context)
    requires forall g :: g in groupBy ==> Plain(g)
    ensures var out := Aggregates.ExpandAll([v], groupBy, row, aq, context);
            |out| == 1 && out[0].group.values == v.group.values + GroupValues(groupBy, row, aq.bucketNanos)
    decreases |groupBy|
  {
    hide GroupValueOf, GroupValues, Plain, Aggregates.Expand;
    if groupBy == [] {
      NoGroupValues(v.group.values, row, aq.bucketNanos);
    } else {
      var g, others := groupBy[0], groupBy[1..];
      assert groupBy == [g] + others;
      ExpandPlain(v, g, row, aq, context);
      ExpandAllPlain(v.(group := Aggregates.With(v.group, g, GroupValueOf(g, row, aq.bucketNanos))), others, row, aq, context);
      FirstGroupValue(v.group.values, g, others, row, aq.bucketNanos);
    }
  }

  lemma {:induction false} KindGroups(groupBy: seq<Aggregates.GroupBy>, kind: Kind)
    requires RollupKind(groupBy) == Some(kind)
    ensures (set g | g in groupBy) == {Aggregates.ByProject, Aggregates.ByTimeBucket} + KindGroup(kind)
    ensures Aggregates.ByFeedbackKey !in groupBy && forall g :: g in groupBy ==> Plain(g)
  {
    var groups := set g | g in groupBy;
    assert forall g :: g in groupBy <==> g in groups;
  }

  lemma {:induction false} GroupValuesOfSet(groupBy: seq<Aggregates.GroupBy>, groups: set<Aggregates.GroupBy>, row: Aggregates.Row, bucketNanos: Option<int>)
    requires groups == set g | g in groupBy
    ensures GroupValues(groupBy, row, bucketNanos) == map g | g in groups :: GroupValueOf(g, row, bucketNanos)
  {
    hide GroupValueOf;
  }

  /** A run's row goes to one group of the scan: that of its rollup key. */
  lemma {:induction false} OneVariant(
    q: Query, groupBy: seq<Aggregates.GroupBy>, feedbackKeys: seq<string>, context: Aggregates.Context, row: Aggregates.Row, r: Run, conv: int -> Float)
    requires RollupKind(groupBy) == Some(q.kind) && Shows(row, r, conv)
    ensures var variants := Aggregates.Variants(row, ScanQuery(q, groupBy, feedbackKeys), context);
            |variants| == 1 && variants[0].group == GroupOf(ScanKey(q, r))
  {
    var aq := ScanQuery(q, groupBy, feedbackKeys);
    var start := Aggregates.Variant(Aggregates.Group(map[]), []);
    hide RollupKind, Aggregates.ExpandAll, Aggregates.SelectFeedback, GroupOf, GroupValueOf, GroupValues, Shows, ScanKey, Plain;
    KindGroups(groupBy, q.kind);
    ExpandAllPlain(start, groupBy, row, aq, context);
    GroupValuesOfSet(groupBy, {Aggregates.ByProject, Aggregates.ByTimeBucket} + KindGroup(q.kind), row, q.bucketNanos);
    KindValues(q, {Aggregates.ByProject, Aggregates.ByTimeBucket} + KindGroup(q.kind), row, r, conv);
    assert start.group.values + GroupOf(ScanKey(q, r)).values == GroupOf(ScanKey(q, r)).values;
  }

  lemma {:induction false} KindValues(q: Query, groups: set<Aggregates.GroupBy>, row: Aggregates.Row, r: Run, conv: int -> Float)
    requires Shows(row, r, conv)
    requires groups == {Aggregates.ByProject, Aggregates.ByTimeBucket} + KindGroup(q.kind)
    ensures (map g | g in groups :: GroupValueOf(g, row, q.bucketNanos)) == GroupOf(ScanKey(q, r)).values
  {
    TrueIsNotFalse();
    hide Aggregates.TimeBucket;
  }

  function KindGroup(kind: Kind): set<Aggregates.GroupBy> {
    match kind
    case ProjectKind => {}
    case RunTypeKind => {Aggregates.ByRunType}
    case ModelKind => {Aggregates.ByModel}
    case ErrorKind => {Aggregates.ByError}
  }

  /** Keys as runs have them: an error key is true or false. */
  predicate WellKeyed(key: RollupKey) {
    key.kind == ErrorKind ==> key.value == "true" || key.value == "false"
  }

  /** Different rollup rows of a kind stand for different groups. */
  lemma {:induction false} GroupsDiffer(a: RollupKey, b: RollupKey, q: Query)
    requires a.kind == b.kind && WellKeyed(a) && WellKeyed(b)
    requires a.kind == ProjectKind ==> a.value == a.project && b.value == b.project
    ensures GroupOf(a) == GroupOf(b) <==> a == b
  {
    TrueIsNotFalse();
    if GroupOf(a) == GroupOf(b) {
      var x, y := GroupOf(a).values, GroupOf(b).values;
      assert x[Aggregates.ByProject] == y[Aggregates.ByProject] && x[Aggregates.ByTimeBucket] == y[Aggregates.ByTimeBucket];
      match a.kind
      case ProjectKind =>
      case RunTypeKind => assert x[Aggregates.ByRunType] == y[Aggregates.ByRunType];
      case ModelKind => assert x[Aggregates.ByModel] == y[Aggregates.ByModel];
      case ErrorKind => assert x[Aggregates.ByError] == y[Aggregates.ByError];
    }
  }

  // ---- a group's pushes are its runs ----

  ghost predicate PushesShow(pushes: seq<Aggregates.Push>, runs: seq<Run>, conv: int -> Float) {
    |pushes| == |runs| && forall i :: 0 <= i < |pushes| ==> Shows(pushes[i].row, runs[i], conv)
  }

  lemma {:induction false} OneMorePush(
    pushes: seq<Aggregates.Push>, runs: seq<Run>, push: Aggregates.Push, r: Run, conv: int -> Float)
    requires PushesShow(pushes, runs, conv) && Shows(push.row, r, conv)
    ensures PushesShow(pushes + [push], runs + [r], conv)
  {
    hide Shows;
  }

  /** The key's own runs among those scanned. */
  ghost predicate KeyOfScan(q: Query, key: RollupKey) {
    key.kind == q.kind && WellKeyed(key) && (key.kind == ProjectKind ==> key.value == key.project)
  }

  lemma {:induction false} ScannedRunKeyed(q: Query, r: Run)
    ensures KeyOfScan(q, ScanKey(q, r))
  {
  }

  /** One scanned row pushes into the group of its key only. */
  lemma {:induction false} RowPush(
    q: Query, groupBy: seq<Aggregates.GroupBy>, feedbackKeys: seq<string>, context: Aggregates.Context,
    row: Aggregates.Row, r: Run, conv: int -> Float, key: RollupKey)
    requires RollupKind(groupBy) == Some(q.kind) && Shows(row, r, conv) && KeyOfScan(q, key)
    ensures var pushes := Aggregates.PushesOf(ScanQuery(q, groupBy, feedbackKeys), context, GroupOf(key))(row);
            if ScanKey(q, r) == key then |pushes| == 1 && pushes[0].row == row else pushes == []
  {
    OneVariant(q, groupBy, feedbackKeys, context, row, r, conv);
    ScannedRunKeyed(q, r);
    GroupsDiffer(ScanKey(q, r), key, q);
    var variants := Aggregates.Variants(row, ScanQuery(q, groupBy, feedbackKeys), context);
    hide Aggregates.Variants, GroupOf, ScanKey, RollupKind;
    assert variants[..0] == [];
    assert Aggregates.RowPushes(row, variants[..0], GroupOf(key)) == [];
  }

  lemma {:induction false} ScanPushes(
    rows: seq<Aggregates.Row>, live: seq<Run>, q: Query, groupBy: seq<Aggregates.GroupBy>, feedbackKeys: seq<string>,
    context: Aggregates.Context, conv: int -> Float, key: RollupKey)
    requires RollupKind(groupBy) == Some(q.kind) && AllShow(rows, live, conv) && KeyOfScan(q, key)
    ensures PushesShow(Aggregates.PushesTo(ScanRows(rows, live, q), ScanQuery(q, groupBy, feedbackKeys), context, GroupOf(key)),
                       Where(live, InGroup(q, key)), conv)
  {
    var aq := ScanQuery(q, groupBy, feedbackKeys);
    if live != [] {
      var n := |live| - 1;
      var f := Aggregates.PushesOf(aq, context, GroupOf(key));
      assert AllShow(rows[..n], live[..n], conv) && Shows(rows[n], live[n], conv);
      hide *;
      ScanPushes(rows[..n], live[..n], q, groupBy, feedbackKeys, context, conv, key);
      RowPush(q, groupBy, feedbackKeys, context, rows[n], live[n], conv, key);
      ScanStep(rows, live, q, aq, context, key);
      if Scanned(q, live[n]) && ScanKey(q, live[n]) == key {
        assert f(rows[n]) == [f(rows[n])[0]];
        OneMorePush(Aggregates.PushesTo(ScanRows(rows[..n], live[..n], q), aq, context, GroupOf(key)),
                    Where(live[..n], InGroup(q, key)), f(rows[n])[0], live[n], conv);
      }
    } else {
      assert Aggregates.PushesTo([], aq, context, GroupOf(key)) == [];
    }
  }

  lemma {:induction false} ScanStep(
    rows: seq<Aggregates.Row>, live: seq<Run>, q: Query, aq: Aggregates.Query, context: Aggregates.Context, key: RollupKey)
    requires |rows| == |live| && live != []
    ensures var n := |live| - 1;
            var f := Aggregates.PushesOf(aq, context, GroupOf(key));
            var before := Aggregates.PushesTo(ScanRows(rows[..n], live[..n], q), aq, context, GroupOf(key));
            Aggregates.PushesTo(ScanRows(rows, live, q), aq, context, GroupOf(key))
            == if Scanned(q, live[n]) && f(rows[n]) != [] then before + f(rows[n]) else before
    ensures var n := |live| - 1;
            Where(live, InGroup(q, key))
            == Where(live[..n], InGroup(q, key)) + if Scanned(q, live[n]) && ScanKey(q, live[n]) == key then [live[n]] else []
  {
    var n := |live| - 1;
    var before := ScanRows(rows[..n], live[..n], q);
    hide Scanned, ScanKey, Aggregates.PushesOf, GroupOf;
    if Scanned(q, live[n]) {
      assert (before + [rows[n]])[..|before|] == before;
    } else {
      assert before + [] == before;
    }
  }

  /** The same counts, and latencies that convert to the scan's. */
  ghost predicate Alike(acc: Accumulator, scan: Aggregates.Accumulator, conv: int -> Float) {
    scan.count == acc.count && scan.errors == acc.errors && scan.latency == Converted(acc.latencies, conv)
  }

  lemma {:induction false} ConvertedMore(values: seq<int>, value: int, conv: int -> Float)
    ensures Converted(values + [value], conv) == Converted(values, conv) + [conv(value)]
  {
  }

  lemma {:induction false} PushAlike(
    arith: Aggregates.Arithmetic, acc: Accumulator, scan: Aggregates.Accumulator, push: Aggregates.Push, r: Run, conv: int -> Float)
    requires Alike(acc, scan, conv) && Shows(push.row, r, conv) && arith.isFinite(conv(r.latency))
    ensures Alike(Pushed(acc, r), Aggregates.Pushed(arith, scan, push), conv)
  {
    hide Converted, Aggregates.PushMetrics, Aggregates.PushFeedback;
    ConvertedMore(acc.latencies, r.latency, conv);
  }

  /** A group's runs accumulate to the same counts and latencies on both sides. */
  lemma {:induction false} AccumulatedAlike(arith: Aggregates.Arithmetic, pushes: seq<Aggregates.Push>, runs: seq<Run>, conv: int -> Float)
    requires PushesShow(pushes, runs, conv) && forall n: int :: arith.isFinite(conv(n))
    ensures Alike(AccumulatorOf(runs), Aggregates.Accumulated(arith, pushes), conv)
  {
    if runs != [] {
      var n := |runs| - 1;
      assert PushesShow(pushes[..n], runs[..n], conv) && Shows(pushes[n].row, runs[n], conv);
      hide Alike, Pushed, Aggregates.Pushed, Shows, PushesShow;
      AccumulatedAlike(arith, pushes[..n], runs[..n], conv);
      PushAlike(arith, AccumulatorOf(runs[..n]), Aggregates.Accumulated(arith, pushes[..n]), pushes[n], runs[n], conv);
    }
  }

  /** A group's stored row, read back, is what the scan computes for the group. */
  lemma {:induction false} StatsAgree(arith: Aggregates.Arithmetic, pushes: seq<Aggregates.Push>, runs: seq<Run>, conv: int -> Float)
    requires PushesShow(pushes, runs, conv) && runs != [] && Monotone(conv) && forall n: int :: arith.isFinite(conv(n))
    ensures ReadsBack(RollupOut(Finished(AccumulatorOf(runs)), arith, conv), Aggregates.Finished(arith, Aggregates.Accumulated(arith, pushes)))
  {
    AccumulatedAlike(arith, pushes, runs, conv);
    SortConverts(AccumulatorOf(runs).latencies, conv);
    hide AccumulatorOf, Aggregates.Accumulated, Aggregates.PercentileIndex, SortBy, Aggregates.FeedbackSummary, Aggregates.Sum;
  }

  // ---- rollups stand in for scans ----

  lemma {:induction false} ScannedGroups(
    rows: seq<Aggregates.Row>, live: seq<Run>, q: Query, groupBy: seq<Aggregates.GroupBy>, feedbackKeys: seq<string>,
    context: Aggregates.Context, conv: int -> Float)
    requires RollupKind(groupBy) == Some(q.kind) && AllShow(rows, live, conv)
    ensures Aggregates.Groups(ScanRows(rows, live, q), ScanQuery(q, groupBy, feedbackKeys), context)
         == set key | key in ScanKeys(live, q) :: GroupOf(key)
  {
    hide Shows, Scanned, ScanKey, GroupOf, RollupKind, Aggregates.Variants;
    if live == [] {
      assert ScanKeys(live, q) == {};
    } else {
      var n := |live| - 1;
      var aq, before := ScanQuery(q, groupBy, feedbackKeys), ScanRows(rows[..n], live[..n], q);
      ScannedGroups(rows[..n], live[..n], q, groupBy, feedbackKeys, context, conv);
      assert live == live[..n] + [live[n]];
      if Scanned(q, live[n]) {
        OneVariant(q, groupBy, feedbackKeys, context, rows[n], live[n], conv);
        var variants := Aggregates.Variants(rows[n], aq, context);
        assert variants == [variants[0]];
        assert Aggregates.GroupsIn(variants) == {GroupOf(ScanKey(q, live[n]))};
        assert Aggregates.Groups(before + [rows[n]], aq, context) == Aggregates.Groups(before, aq, context) + {GroupOf(ScanKey(q, live[n]))};
        assert ScanKeys(live, q) == ScanKeys(live[..n], q) + {ScanKey(q, live[n])};
      } else {
        assert before + [] == before;
        assert ScanKeys(live, q) == ScanKeys(live[..n], q);
      }
    }
  }

  /** The groups of the answer, and the row read back for each selected key. */
  ghost predicate SameAnswer(
    stored: map<RollupKey, Row>, q: Query, arith: Aggregates.Arithmetic, conv: int -> Float, scan: map<Aggregates.Group, Aggregates.Metrics>)
  {
    && scan.Keys == (set key | key in stored && Selected(q, key) :: GroupOf(key))
    && (forall key :: key in stored && Selected(q, key) ==> ReadsBack(RollupOut(stored[key], arith, conv), scan[GroupOf(key)]))
    && (forall a, b :: a in stored && b in stored && Selected(q, a) && Selected(q, b) && GroupOf(a) == GroupOf(b) ==> a == b)
  }

  /**
   The queries that rollups answer: grouped by project, hour and at most one of run type,
   model and error, filtered by nothing the rows do not tell apart, over whole hours.
   */
  predicate Served(q: Query, groupBy: seq<Aggregates.GroupBy>) {
    var groups := set g | g in groupBy;
    && !q.otherFilters && q.bucketNanos == Some(3_600_000_000_000)
    && (match q.kind
        case ProjectKind => groups == {Aggregates.ByProject, Aggregates.ByTimeBucket} && q.runType == None && q.error == None
        case RunTypeKind => groups == {Aggregates.ByProject, Aggregates.ByTimeBucket, Aggregates.ByRunType} && q.error == None
        case ModelKind => groups == {Aggregates.ByProject, Aggregates.ByTimeBucket, Aggregates.ByModel} && q.runType == None && q.error == None
        case ErrorKind => groups == {Aggregates.ByProject, Aggregates.ByTimeBucket, Aggregates.ByError} && q.runType == None)
    && (q.minStart.Some? ==> q.minStart.value % 3_600_000_000_000 == 0)
    && (q.maxStart.Some? ==> q.maxStart.value < 0x7FFF_FFFF_FFFF_FFFF && (q.maxStart.value + 1) % 3_600_000_000_000 == 0)
  }

  lemma {:induction false} EligibleIffServed(q: Query, groupBy: seq<Aggregates.GroupBy>)
    ensures Eligible(q) && RollupKind(groupBy) == Some(q.kind) <==> Served(q, groupBy)
  {
    var groups := set g | g in groupBy;
    assert Aggregates.ByRunType !in {Aggregates.ByProject, Aggregates.ByTimeBucket, Aggregates.ByModel, Aggregates.ByError};
    assert Aggregates.ByModel !in {Aggregates.ByProject, Aggregates.ByTimeBucket, Aggregates.ByRunType, Aggregates.ByError};
    assert Aggregates.ByError !in {Aggregates.ByProject, Aggregates.ByTimeBucket, Aggregates.ByModel, Aggregates.ByRunType};
  }

  /** The runs at these places, and no others, are in the projects, started in time and pass the filters. */
  ghost predicate PassAt(live: seq<Run>, q: Query, at: seq<nat>) {
    && (forall i, j :: 0 <= i < j < |at| ==> at[i] < at[j])
    && (forall k :: 0 <= k < |at| ==> at[k] < |live|)
    && forall i: nat :: i < |live| ==> (i in at <==> Passes(q, live[i]))
  }

  predicate Passes(q: Query, r: Run) {
    && r.project in q.projects
    && (q.minStart.Some? ==> q.minStart.value <= r.start)
    && (q.maxStart.Some? ==> r.start <= q.maxStart.value)
    && (q.runType.Some? ==> q.runType.value == r.runType)
    && (q.error.Some? ==> if q.error.value then r.status == "error" else r.status != "error")
  }

  function RowsAt(rows: seq<Aggregates.Row>, at: seq<nat>): seq<Aggregates.Row>
    requires forall k :: 0 <= k < |at| ==> at[k] < |rows|
  {
    seq(|at|, k requires 0 <= k < |at| => rows[at[k]])
  }

  lemma {:induction false} PassFront(live: seq<Run>, q: Query, at: seq<nat>)
    requires live != [] && PassAt(live, q, at)
    ensures var n := |live| - 1;
            if Passes(q, live[n]) then at != [] && at[|at| - 1] == n && PassAt(live[..n], q, at[..|at| - 1]) else PassAt(live[..n], q, at)
  {
    var n := |live| - 1;
    hide Passes;
    forall k | 0 <= k < |at| - 1
      ensures at[k] < n
    {
      assert at[k] < at[|at| - 1] <= n;
    }
    if Passes(q, live[n]) {
      var k :| 0 <= k < |at| && at[k] == n;
      var front := at[..k];
      forall i: nat | i < n
        ensures i in front <==> Passes(q, live[..n][i])
      {
        assert i in at <==> i in front;
      }
    } else {
      forall k | 0 <= k < |at|
        ensures at[k] < n
      {
        assert at[k] in at;
      }
    }
  }

  /** The scan reads exactly the rows of the runs that pass. */
  lemma {:induction false} ScanReads(rows: seq<Aggregates.Row>, live: seq<Run>, q: Query, at: seq<nat>)
    requires |rows| == |live| && PassAt(live, q, at)
    ensures ScanRows(rows, live, q) == RowsAt(rows, at)
  {
    if live == [] {
      assert at == [];
    } else {
      var n := |live| - 1;
      PassFront(live, q, at);
      assert Passes(q, live[n]) <==> Scanned(q, live[n]);
      if Passes(q, live[n]) {
        var front := at[..|at| - 1];
        ScanReads(rows[..n], live[..n], q, front);
        assert RowsAt(rows, at) == RowsAt(rows[..n], front) + [rows[n]];
      } else {
        ScanReads(rows[..n], live[..n], q, at);
        assert RowsAt(rows, at) == RowsAt(rows[..n], at);
      }
    }
  }

  /**
   Every served query gets from the rollups, one row a group, the groups, run counts,
   error counts, error rates and latency minimum, maximum and percentiles that aggregating
   the rows of the live runs that pass its filters gives.
   */
  lemma {:induction false} RollupEqualsScan(
    live: seq<Run>, stored: map<RollupKey, Row>, q: Query, groupBy: seq<Aggregates.GroupBy>, feedbackKeys: seq<string>,
    rows: seq<Aggregates.Row>, at: seq<nat>, context: Aggregates.Context, arith: Aggregates.Arithmetic, conv: int -> Float)
    requires Served(q, groupBy) && AllShow(rows, live, conv) && PassAt(live, q, at)
    requires Monotone(conv) && forall n: int :: arith.isFinite(conv(n))
    requires forall p :: p in q.projects ==> Fresh(stored, live, p)
    ensures SameAnswer(stored, q, arith, conv, Aggregates.Aggregated(arith, RowsAt(rows, at), ScanQuery(q, groupBy, feedbackKeys), context))
  {
    EligibleIffServed(q, groupBy);
    ScanReads(rows, live, q, at);
    var scanned, aq := ScanRows(rows, live, q), ScanQuery(q, groupBy, feedbackKeys);
    hide *;
    ScannedGroups(rows, live, q, groupBy, feedbackKeys, context, conv);
    KeySetsAgree(live, stored, q);
    forall key | key in stored && Selected(q, key)
      ensures KeyOfScan(q, key)
      ensures ReadsBack(RollupOut(stored[key], arith, conv),
                        Aggregates.Finished(arith, Aggregates.Accumulated(arith, Aggregates.PushesTo(scanned, aq, context, GroupOf(key)))))
    {
      RowsAgree(live, stored, q, groupBy, feedbackKeys, rows, context, arith, conv, key);
    }
    NowSame(stored, q, arith, conv, scanned, aq, context);
  }

  lemma {:induction false} KeySetsAgree(live: seq<Run>, stored: map<RollupKey, Row>, q: Query)
    requires Eligible(q) && forall p :: p in q.projects ==> Fresh(stored, live, p)
    ensures (set key | key in stored && Selected(q, key) :: GroupOf(key)) == (set key | key in ScanKeys(live, q) :: GroupOf(key))
  {
    hide Eligible, Selected, Fresh, GroupOf, ScanKeys;
    forall key
      ensures key in stored && Selected(q, key) <==> key in ScanKeys(live, q)
    {
      KeysAgree(live, stored, q, key);
    }
  }

  lemma {:induction false} NowSame(
    stored: map<RollupKey, Row>, q: Query, arith: Aggregates.Arithmetic, conv: int -> Float,
    scanned: seq<Aggregates.Row>, aq: Aggregates.Query, context: Aggregates.Context)
    requires Aggregates.Groups(scanned, aq, context) == set key | key in stored && Selected(q, key) :: GroupOf(key)
    requires forall key :: key in stored && Selected(q, key) ==> KeyOfScan(q, key)
    requires forall key :: key in stored && Selected(q, key) ==>
      ReadsBack(RollupOut(stored[key], arith, conv),
                Aggregates.Finished(arith, Aggregates.Accumulated(arith, Aggregates.PushesTo(scanned, aq, context, GroupOf(key)))))
    ensures SameAnswer(stored, q, arith, conv, Aggregates.Aggregated(arith, scanned, aq, context))
  {
    hide Selected, RollupOut, ReadsBack, GroupOf, Aggregates.Groups, Aggregates.PushesTo, Aggregates.Finished, Aggregates.Accumulated;
    forall a, b | a in stored && b in stored && Selected(q, a) && Selected(q, b) && GroupOf(a) == GroupOf(b)
      ensures a == b
    {
      GroupsDiffer(a, b, q);
    }
  }

  lemma {:induction false} KeysAgree(live: seq<Run>, rows: map<RollupKey, Row>, q: Query, key: RollupKey)
    requires Eligible(q) && forall p :: p in q.projects ==> Fresh(rows, live, p)
    ensures key in rows && Selected(q, key) <==> key in ScanKeys(live, q)
  {
    hide Eligible, Scanned, RowOf;
    if key in rows && Selected(q, key) {
      assert Fresh(rows, live, key.project);
      var r :| r in live && KeyOf(key.kind, r) == key;
      RunAgrees(q, r);
    }
    if key in ScanKeys(live, q) {
      var r :| r in live && Scanned(q, r) && ScanKey(q, r) == key;
      RunAgrees(q, r);
      assert Selected(q, key) && Fresh(rows, live, key.project);
    }
  }

  lemma {:induction false} StoredRow(live: seq<Run>, stored: map<RollupKey, Row>, q: Query, key: RollupKey)
    requires Eligible(q) && (forall p :: p in q.projects ==> Fresh(stored, live, p)) && key in stored && Selected(q, key)
    ensures KeyOfScan(q, key) && Where(live, InGroup(q, key)) != []
    ensures stored[key] == Finished(AccumulatorOf(Where(live, InGroup(q, key))))
  {
    assert Fresh(stored, live, key.project);
    SomeWithKey(live, key.kind, key);
    KeysAgree(live, stored, q, key);
    var r :| r in live && Scanned(q, r) && ScanKey(q, r) == key;
    ScannedRunKeyed(q, r);
    hide Eligible, Scanned, Selected, Where, Finished, AccumulatorOf;
    forall r
      ensures HasKey(key.kind, key)(r) == InGroup(q, key)(r)
    {
      RunAgrees(q, r);
    }
    WhereSame(live, HasKey(key.kind, key), InGroup(q, key));
  }

  lemma {:induction false} RowsAgree(
    live: seq<Run>, stored: map<RollupKey, Row>, q: Query, groupBy: seq<Aggregates.GroupBy>, feedbackKeys: seq<string>,
    rows: seq<Aggregates.Row>, context: Aggregates.Context, arith: Aggregates.Arithmetic, conv: int -> Float, key: RollupKey)
    requires Eligible(q) && RollupKind(groupBy) == Some(q.kind) && AllShow(rows, live, conv)
    requires Monotone(conv) && forall n: int :: arith.isFinite(conv(n))
    requires (forall p :: p in q.projects ==> Fresh(stored, live, p)) && key in stored && Selected(q, key)
    ensures KeyOfScan(q, key)
    ensures ReadsBack(RollupOut(stored[key], arith, conv),
                      Aggregates.Finished(arith, Aggregates.Accumulated(arith,
                        Aggregates.PushesTo(ScanRows(rows, live, q), ScanQuery(q, groupBy, feedbackKeys), context, GroupOf(key)))))
  {
    StoredRow(live, stored, q, key);
    hide *;
    ScanPushes(rows, live, q, groupBy, feedbackKeys, context, conv, key);
    StatsAgree(arith, Aggregates.PushesTo(ScanRows(rows, live, q), ScanQuery(q, groupBy, feedbackKeys), context, GroupOf(key)),
               Where(live, InGroup(q, key)), conv);
  }
}
