/**
 Grouped statistics over runs.  Floating-point numbers are modelled by their place in the
 total order that sorts them; addition and division are arbitrary operations, in
 particular not associative (src/query/aggregates.rs, src/query/aggregates/distributed.rs).
 */
module Aggregates {
  import opened Wrappers
  import opened Ordering

  /** A floating-point number, as its rank in the total order of bit patterns. */
  type Float = int

  /** The operations on floats, about which nothing is assumed. */
  datatype Arithmetic = Arithmetic(
    zero: Float, add: (Float, Float) -> Float, divide: (Float, nat) -> Float, ratio: (nat, nat) -> Float,
    isFinite: Float -> bool, band: Float -> string)

  datatype RunKey = RunKey(project: string, trace: string, span: string)

  /** `metrics` are the optional measurements, always in the same order; latency is always present. */
  datatype Row = Row(
    key: RunKey, start: int, runType: string, model: Option<string>, provider: Option<string>, status: string,
    latency: Float, metrics: seq<Option<Float>>)

  datatype Feedback = Feedback(key: string, score: Float)

  datatype GroupBy = ByProject | ByTimeBucket | ByRunType | ByTag | ByModel | ByProvider | ByError | ByFeedbackKey

  datatype GroupValue = Text(text: string) | BucketStart(nanos: int) | Flag(flag: bool)

  datatype Group = Group(values: map<GroupBy, GroupValue>)

  function With(group: Group, by_: GroupBy, value: GroupValue): Group {
    Group(group.values[by_ := value])
  }

  datatype Variant = Variant(group: Group, feedback: seq<Feedback>)

  const ROLLUP_BUCKET_NANOS: int := 3_600_000_000_000

  datatype Query = Query(groupBy: seq<GroupBy>, bucketNanos: Option<int>, feedbackKeys: seq<string>)

  /** What the run tables say about runs besides their rows. */
  datatype Context = Context(tags: map<RunKey, seq<string>>, feedback: map<RunKey, seq<Feedback>>)

  // ---- which groups a row belongs to ----

  /** `time_bucket`; the division rounds down for times before the epoch too. */
  function TimeBucket(start: int, bucketNanos: Option<int>): int {
    var asked := if bucketNanos.Some? then bucketNanos.value else ROLLUP_BUCKET_NANOS;
    var bucket := if asked < 1 then 1 else asked;
    start / bucket * bucket
  }

  function FeedbackOf(key: RunKey, context: Context): seq<Feedback> {
    if key in context.feedback then context.feedback[key] else []
  }

  function SelectFeedback(scores: seq<Feedback>, keys: seq<string>, emptyMeansAll: bool): seq<Feedback> {
    if scores == [] then []
    else
      (if (emptyMeansAll && keys == []) || scores[0].key in keys then [scores[0]] else [])
      + SelectFeedback(scores[1..], keys, emptyMeansAll)
  }

  function TagValues(row: Row, context: Context): seq<GroupValue> {
    if row.key in context.tags && context.tags[row.key] != [] then
      var tags := context.tags[row.key];
      seq(|tags|, i requires 0 <= i < |tags| => Text(tags[i]))
    else [Text("untagged")]
  }

  function OrUnknown(name: Option<string>): string {
    if name.Some? then name.value else "unknown"
  }

  /** `append_group_values`: every variant with every value. */
  function AppendValues(variants: seq<Variant>, by_: GroupBy, values: seq<GroupValue>): seq<Variant> {
    if variants == [] then []
    else
      var v := variants[0];
      seq(|values|, i requires 0 <= i < |values| => v.(group := With(v.group, by_, values[i]))) + AppendValues(variants[1..], by_, values)
  }

  function ExpandFeedback(variants: seq<Variant>, scores: seq<Feedback>): seq<Variant> {
    if variants == [] then []
    else
      var v := variants[0];
      seq(|scores|, i requires 0 <= i < |scores| => Variant(With(v.group, ByFeedbackKey, Text(scores[i].key)), [scores[i]]))
      + ExpandFeedback(variants[1..], scores)
  }

  function Expand(variants: seq<Variant>, by_: GroupBy, row: Row, query: Query, context: Context): seq<Variant> {
    match by_
    case ByProject => AppendValues(variants, by_, [Text(row.key.project)])
    case ByTimeBucket => AppendValues(variants, by_, [BucketStart(TimeBucket(row.start, query.bucketNanos))])
    case ByRunType => AppendValues(variants, by_, [Text(row.runType)])
    case ByTag => AppendValues(variants, by_, TagValues(row, context))
    case ByModel => AppendValues(variants, by_, [Text(OrUnknown(row.model))])
    case ByProvider => AppendValues(variants, by_, [Text(OrUnknown(row.provider))])
    case ByError => AppendValues(variants, by_, [Flag(row.status == "error")])
    case ByFeedbackKey => ExpandFeedback(variants, SelectFeedback(FeedbackOf(row.key, context), query.feedbackKeys, true))
  }

  function ExpandAll(variants: seq<Variant>, groupBy: seq<GroupBy>, row: Row, query: Query, context: Context): seq<Variant>
    decreases |groupBy|
  {
    if groupBy == [] then variants else ExpandAll(Expand(variants, groupBy[0], row, query, context), groupBy[1..], row, query, context)
  }

  function AttachFeedback(variants: seq<Variant>, scores: seq<Feedback>): seq<Variant> {
    if scores == [] then variants
    else seq(|variants|, i requires 0 <= i < |variants| => Variant(variants[i].group, scores))
  }

  /** `group_variants`. */
  function Variants(row: Row, query: Query, context: Context): seq<Variant> {
    var variants := ExpandAll([Variant(Group(map[]), [])], query.groupBy, row, query, context);
    if ByFeedbackKey in query.groupBy then variants
    else AttachFeedback(variants, SelectFeedback(FeedbackOf(row.key, context), query.feedbackKeys, false))
  }

  // ---- accumulating ----

  /** One `push` into an accumulator. */
  datatype Push = Push(row: Row, feedback: seq<Feedback>)

  datatype Accumulator = Accumulator(count: nat, errors: nat, latency: seq<Float>, metrics: map<int, seq<Float>>, feedback: map<string, seq<Float>>)

  const NOTHING: Accumulator := Accumulator(0, 0, [], map[], map[])

  function Finite(arith: Arithmetic, value: Float): seq<Float> {
    if arith.isFinite(value) then [value] else []
  }

  function ValuesAt<K(==)>(values: map<K, seq<Float>>, key: K): seq<Float> {
    if key in values then values[key] else []
  }

  function PushMetrics(arith: Arithmetic, metrics: map<int, seq<Float>>, row: Row, n: nat): map<int, seq<Float>>
    requires n <= |row.metrics|
  {
    if n == 0 then metrics
    else
      var before := PushMetrics(arith, metrics, row, n - 1);
      match row.metrics[n - 1]
      case None => before
      case Some(value) => before[n - 1 := ValuesAt(before, n - 1) + Finite(arith, value)]
  }

  function PushFeedback(arith: Arithmetic, feedback: map<string, seq<Float>>, scores: seq<Feedback>): map<string, seq<Float>> {
    if scores == [] then feedback
    else
      var before := PushFeedback(arith, feedback, scores[..|scores| - 1]);
      var last := scores[|scores| - 1];
      before[last.key := ValuesAt(before, last.key) + Finite(arith, last.score)]
  }

  /** `AggregateAccumulator::push`. */
  function Pushed(arith: Arithmetic, acc: Accumulator, push: Push): Accumulator {
    Accumulator(
      acc.count + 1,
      acc.errors + (if push.row.status == "error" then 1 else 0),
      acc.latency + Finite(arith, push.row.latency),
      PushMetrics(arith, acc.metrics, push.row, |push.row.metrics|),
      PushFeedback(arith, acc.feedback, push.feedback))
  }

  function Accumulated(arith: Arithmetic, pushes: seq<Push>): Accumulator {
    if pushes == [] then NOTHING else Pushed(arith, Accumulated(arith, pushes[..|pushes| - 1]), pushes[|pushes| - 1])
  }

  // ---- finishing ----

  datatype Stats = Stats(count: nat, sum: Float, avg: Float, min: Float, max: Float, p50: Option<Float>, p95: Option<Float>, p99: Option<Float>)

  datatype FeedbackStats = FeedbackStats(stats: Option<Stats>, distribution: map<string, nat>)

  datatype Metrics = Metrics(
    count: nat, errors: nat, errorRate: Float, latency: Option<Stats>, metrics: map<nat, Option<Stats>>, feedback: map<string, FeedbackStats>)

  predicate FloatLeq(a: Float, b: Float) {
    a <= b
  }

  function SortFloats(values: seq<Float>): (sorted: seq<Float>)
    ensures |sorted| == |values|
  {
    SortByCorrect(values, FloatLeq);
    SortBy(values, FloatLeq)
  }

  function Sum(arith: Arithmetic, values: seq<Float>): Float {
    if values == [] then arith.zero else arith.add(Sum(arith, values[..|values| - 1]), values[|values| - 1])
  }

  function PercentileIndex(count: nat, percentile: nat): (i: nat)
    requires count > 0
    ensures i < count
  {
    var index := ((count - 1) * percentile + 99) / 100;
    if index < count - 1 then index else count - 1
  }

  /** `percentile`: of sorted values, the one at the rank rounded up. */
  function Percentile(sorted: seq<Float>, percentile: nat): Float
    requires sorted != []
  {
    sorted[PercentileIndex(|sorted|, percentile)]
  }

  /** `SummaryAccumulator::finish`: sorted first, then folded. */
  function Summary(arith: Arithmetic, values: seq<Float>, percentiles: bool): Option<Stats> {
    if values == [] then None
    else
      var sorted := SortFloats(values);
      var sum := Sum(arith, sorted);
      Some(Stats(|sorted|, sum, arith.divide(sum, |sorted|), sorted[0], sorted[|sorted| - 1],
                 if percentiles then Some(Percentile(sorted, 50)) else None,
                 if percentiles then Some(Percentile(sorted, 95)) else None,
                 if percentiles then Some(Percentile(sorted, 99)) else None))
  }

  /** `feedback_distribution` of sorted values. */
  function Distribution(arith: Arithmetic, sorted: seq<Float>): map<string, nat> {
    if sorted == [] then map["lt_0" := 0, "0_to_0_25" := 0, "0_25_to_0_5" := 0, "0_5_to_0_75" := 0, "0_75_to_1" := 0, "gt_1" := 0]
    else
      var before := Distribution(arith, sorted[..|sorted| - 1]);
      var band := arith.band(sorted[|sorted| - 1]);
      before[band := (if band in before then before[band] else 0) + 1]
  }

  function FeedbackSummary(arith: Arithmetic, values: seq<Float>): FeedbackStats {
    FeedbackStats(Summary(arith, values, true), Distribution(arith, SortFloats(values)))
  }

  const METRIC_COUNT: nat := 8
  const FIRST_TOKEN_METRIC: nat := 6

  /** `AggregateAccumulator::finish`; only the first-token latency among the metrics has percentiles. */
  function Finished(arith: Arithmetic, acc: Accumulator): Metrics {
    Metrics(
      acc.count, acc.errors,
      if acc.count == 0 then arith.zero else arith.ratio(acc.errors, acc.count),
      Summary(arith, acc.latency, true),
      map k: nat | k < METRIC_COUNT :: Summary(arith, ValuesAt(acc.metrics, k), k == FIRST_TOKEN_METRIC),
      map key | key in acc.feedback :: FeedbackSummary(arith, acc.feedback[key]))
  }

  // ---- what an accumulator holds depends on the pushes, not their order ----

  /** The values each element contributes, end to end. */
  function Extract<T, V>(xs: seq<T>, f: T -> seq<V>): seq<V> {
    if xs == [] then [] else Extract(xs[..|xs| - 1], f) + f(xs[|xs| - 1])
  }

  lemma {:induction false} ExtractJoin<T, V>(a: seq<T>, b: seq<T>, f: T -> seq<V>)
    ensures Extract(a + b, f) == Extract(a, f) + Extract(b, f)
  {
    if b == [] {
      assert a + b == a;
      assert Extract(a, f) + [] == Extract(a, f);
    } else {
      var n := |b| - 1;
      ExtractJoin(a, b[..n], f);
      assert (a + b)[..|a| + n] == a + b[..n] && (a + b)[|a| + n] == b[n];
      assert (Extract(a, f) + Extract(b[..n], f)) + f(b[n]) == Extract(a, f) + (Extract(b[..n], f) + f(b[n]));
    }
  }

  lemma {:induction false} ExtractOne<T, V>(x: T, f: T -> seq<V>)
    ensures Extract([x], f) == f(x)
  {
    assert [x][..0] == [];
    assert Extract([x][..0], f) + f(x) == f(x);
  }

  lemma {:induction false} ExtractPermuted<T, V>(a: seq<T>, b: seq<T>, f: T -> seq<V>)
    requires multiset(a) == multiset(b)
    ensures multiset(Extract(a, f)) == multiset(Extract(b, f))
  {
    if a == [] {
      assert |multiset(b)| == 0;
      assert b == [];
    } else {
      var i := RemoveFirst(a, b);
      ExtractPermuted(a[1..], b[..i] + b[i + 1..], f);
      hide Extract;
      ExtractAround(b, i, f);
      ExtractAround(a, 0, f);
      assert a[..0] + a[1..] == a[1..];
    }
  }

  /** One element's values, and those of the rest. */
  lemma {:induction false} ExtractAround<T, V>(xs: seq<T>, i: nat, f: T -> seq<V>)
    requires i < |xs|
    ensures multiset(Extract(xs, f)) == multiset(f(xs[i])) + multiset(Extract(xs[..i] + xs[i + 1..], f))
  {
    hide Extract;
    assert xs == (xs[..i] + [xs[i]]) + xs[i + 1..];
    ExtractJoin(xs[..i] + [xs[i]], xs[i + 1..], f);
    ExtractJoin(xs[..i], [xs[i]], f);
    ExtractOne(xs[i], f);
    ExtractJoin(xs[..i], xs[i + 1..], f);
  }

  function LatencyOf(arith: Arithmetic): Push -> seq<Float> {
    (push: Push) => Finite(arith, push.row.latency)
  }

  function MetricIn(arith: Arithmetic, row: Row, k: nat, n: nat): seq<Float> {
    if k < n && k < |row.metrics| && row.metrics[k].Some? then Finite(arith, row.metrics[k].value) else []
  }

  function MetricOf(arith: Arithmetic, k: nat): Push -> seq<Float> {
    (push: Push) => MetricIn(arith, push.row, k, |push.row.metrics|)
  }

  function ScoresIn(arith: Arithmetic, scores: seq<Feedback>, key: string): seq<Float> {
    if scores == [] then []
    else
      var last := scores[|scores| - 1];
      ScoresIn(arith, scores[..|scores| - 1], key) + (if last.key == key then Finite(arith, last.score) else [])
  }

  function ScoreOf(arith: Arithmetic, key: string): Push -> seq<Float> {
    (push: Push) => ScoresIn(arith, push.feedback, key)
  }

  function ErrorOf(): Push -> seq<bool> {
    (push: Push) => if push.row.status == "error" then [true] else []
  }

  function KeysIn(scores: seq<Feedback>): set<string> {
    set s | s in scores :: s.key
  }

  function FeedbackKeys(pushes: seq<Push>): set<string> {
    set p, s | p in pushes && s in p.feedback :: s.key
  }

  lemma {:induction false} UpdatedValues<K>(values: map<K, seq<Float>>, key: K, more: seq<Float>, other: K)
    ensures ValuesAt(values[key := ValuesAt(values, key) + more], other)
         == ValuesAt(values, other) + (if other == key then more else [])
  {
    if other != key {
      assert ValuesAt(values, other) + [] == ValuesAt(values, other);
    }
  }

  lemma {:induction false} JoinThree(a: seq<Float>, b: seq<Float>, c: seq<Float>)
    ensures (a + b) + c == a + (b + c) && a + [] == a && b + [] == b
  {
  }

  lemma {:induction false} MetricsPushed(arith: Arithmetic, metrics: map<int, seq<Float>>, row: Row, n: nat, k: nat)
    requires n <= |row.metrics|
    ensures ValuesAt(PushMetrics(arith, metrics, row, n), k) == ValuesAt(metrics, k) + MetricIn(arith, row, k, n)
  {
    hide Finite, ValuesAt;
    if n > 0 {
      MetricsPushed(arith, metrics, row, n - 1, k);
      var before := PushMetrics(arith, metrics, row, n - 1);
      var base, more := ValuesAt(metrics, k), MetricIn(arith, row, k, n - 1);
      if row.metrics[n - 1].Some? {
        var value := Finite(arith, row.metrics[n - 1].value);
        UpdatedValues<int>(before, n - 1, value, k);
        var all := ValuesAt(PushMetrics(arith, metrics, row, n), k);
        if k == n - 1 {
          assert all == (base + []) + value;
          assert base + [] == base;
        } else {
          assert all == (base + more) + [];
          assert (base + more) + [] == base + more;
        }
      }
    } else {
      JoinThree(ValuesAt(metrics, k), [], []);
    }
  }

  lemma {:induction false} FeedbackPushed(arith: Arithmetic, feedback: map<string, seq<Float>>, scores: seq<Feedback>, key: string)
    ensures ValuesAt(PushFeedback(arith, feedback, scores), key) == ValuesAt(feedback, key) + ScoresIn(arith, scores, key)
  {
    hide Finite, ValuesAt;
    if scores != [] {
      var n := |scores| - 1;
      var last := scores[n];
      FeedbackPushed(arith, feedback, scores[..n], key);
      UpdatedValues(PushFeedback(arith, feedback, scores[..n]), last.key, Finite(arith, last.score), key);
      JoinThree(ValuesAt(feedback, key), ScoresIn(arith, scores[..n], key), if last.key == key then Finite(arith, last.score) else []);
    } else {
      JoinThree(ValuesAt(feedback, key), [], []);
    }
  }

  lemma {:induction false} FeedbackKeysPushed(arith: Arithmetic, feedback: map<string, seq<Float>>, scores: seq<Feedback>, key: string)
    ensures key in PushFeedback(arith, feedback, scores) <==> key in feedback || key in KeysIn(scores)
  {
    hide Finite, KeysIn, ValuesAt;
    if scores == [] {
      NoKeys();
    } else {
      FeedbackKeysPushed(arith, feedback, scores[..|scores| - 1], key);
      ScoreKeysOneMore(scores, key);
    }
  }

  lemma {:induction false} NoKeys()
    ensures KeysIn([]) == {}
  {
  }

  lemma {:induction false} ScoreKeysOneMore(scores: seq<Feedback>, key: string)
    requires scores != []
    ensures key in KeysIn(scores) <==> key in KeysIn(scores[..|scores| - 1]) || key == scores[|scores| - 1].key
  {
    var n := |scores| - 1;
    assert scores == scores[..n] + [scores[n]];
    assert KeysIn(scores) == KeysIn(scores[..n]) + {scores[n].key};
  }

  lemma {:induction false} AccumulatedHolds(arith: Arithmetic, pushes: seq<Push>, k: nat, key: string)
    ensures var acc := Accumulated(arith, pushes);
            && acc.count == |pushes| && acc.errors == |Extract(pushes, ErrorOf())|
            && acc.latency == Extract(pushes, LatencyOf(arith))
            && ValuesAt(acc.metrics, k) == Extract(pushes, MetricOf(arith, k))
            && ValuesAt(acc.feedback, key) == Extract(pushes, ScoreOf(arith, key))
            && (key in acc.feedback <==> key in FeedbackKeys(pushes))
  {
    if pushes != [] {
      var n := |pushes| - 1;
      var last := pushes[n];
      var before := Accumulated(arith, pushes[..n]);
      AccumulatedHolds(arith, pushes[..n], k, key);
      MetricsPushed(arith, before.metrics, last.row, |last.row.metrics|, k);
      FeedbackPushed(arith, before.feedback, last.feedback, key);
      FeedbackKeysPushed(arith, before.feedback, last.feedback, key);
      KeysOneMore(pushes, key);
      hide PushMetrics, PushFeedback, ScoresIn, MetricIn, FeedbackKeys, KeysIn;
    }
  }

  lemma {:induction false} KeysOneMore(pushes: seq<Push>, key: string)
    requires pushes != []
    ensures key in FeedbackKeys(pushes) <==>
      key in FeedbackKeys(pushes[..|pushes| - 1]) || key in KeysIn(pushes[|pushes| - 1].feedback)
  {
    var n := |pushes| - 1;
    assert pushes == pushes[..n] + [pushes[n]];
    assert FeedbackKeys(pushes) == FeedbackKeys(pushes[..n]) + KeysIn(pushes[n].feedback);
  }

  lemma {:induction false} FloatLeqTotal()
    ensures TotalPreorder(FloatLeq) && Antisymmetric(FloatLeq)
  {
  }

  /** A summary sorts before it folds, so it cannot see the order of its values. */
  lemma {:induction false} SummaryPermuted(arith: Arithmetic, a: seq<Float>, b: seq<Float>, percentiles: bool)
    requires multiset(a) == multiset(b)
    ensures Summary(arith, a, percentiles) == Summary(arith, b, percentiles)
    ensures FeedbackSummary(arith, a) == FeedbackSummary(arith, b)
  {
    FloatLeqTotal();
    SortByPermutation(a, b, FloatLeq);
    assert |a| == |multiset(a)| == |multiset(b)| == |b|;
  }

  /** The finished metrics are the same for every order of the pushes. */
  lemma {:induction false} FinishedPermuted(arith: Arithmetic, a: seq<Push>, b: seq<Push>)
    requires multiset(a) == multiset(b)
    ensures Finished(arith, Accumulated(arith, a)) == Finished(arith, Accumulated(arith, b))
  {
    var x, y := Accumulated(arith, a), Accumulated(arith, b);
    hide Accumulated, Summary, FeedbackSummary, Extract, FeedbackKeys;
    AccumulatedHolds(arith, a, 0, "");
    AccumulatedHolds(arith, b, 0, "");
    assert |a| == |multiset(a)| == |multiset(b)| == |b|;
    ExtractPermuted(a, b, ErrorOf());
    assert |multiset(Extract(a, ErrorOf()))| == |multiset(Extract(b, ErrorOf()))|;
    ExtractPermuted(a, b, LatencyOf(arith));
    SummaryPermuted(arith, x.latency, y.latency, true);
    forall k: nat
      ensures Summary(arith, ValuesAt(x.metrics, k), k == FIRST_TOKEN_METRIC) == Summary(arith, ValuesAt(y.metrics, k), k == FIRST_TOKEN_METRIC)
    {
      AccumulatedHolds(arith, a, k, "");
      AccumulatedHolds(arith, b, k, "");
      ExtractPermuted(a, b, MetricOf(arith, k));
      SummaryPermuted(arith, ValuesAt(x.metrics, k), ValuesAt(y.metrics, k), k == FIRST_TOKEN_METRIC);
    }
    forall key
      ensures key in x.feedback <==> key in y.feedback
      ensures key in x.feedback ==> FeedbackSummary(arith, x.feedback[key]) == FeedbackSummary(arith, y.feedback[key])
    {
      AccumulatedHolds(arith, a, 0, key);
      AccumulatedHolds(arith, b, 0, key);
      SameKeys(a, b);
      ExtractPermuted(a, b, ScoreOf(arith, key));
      SummaryPermuted(arith, ValuesAt(x.feedback, key), ValuesAt(y.feedback, key), true);
    }
    var f, g := Finished(arith, x), Finished(arith, y);
    assert f.metrics == g.metrics;
    assert f.feedback == g.feedback;
  }

  lemma {:induction false} SameKeys(a: seq<Push>, b: seq<Push>)
    requires multiset(a) == multiset(b)
    ensures FeedbackKeys(a) == FeedbackKeys(b)
  {
    forall p
      ensures p in a <==> p in b
    {
      assert p in a <==> p in multiset(a);
      assert p in b <==> p in multiset(b);
    }
  }

  // ---- grouping ----

  /** The pushes a row makes into a group. */
  function RowPushes(row: Row, variants: seq<Variant>, group: Group): seq<Push> {
    if variants == [] then []
    else
      var last := variants[|variants| - 1];
      RowPushes(row, variants[..|variants| - 1], group) + (if last.group == group then [Push(row, last.feedback)] else [])
  }

  function PushesOf(query: Query, context: Context, group: Group): Row -> seq<Push> {
    (row: Row) => RowPushes(row, Variants(row, query, context), group)
  }

  function PushesTo(rows: seq<Row>, query: Query, context: Context, group: Group): seq<Push> {
    Extract(rows, PushesOf(query, context, group))
  }

  function GroupsIn(variants: seq<Variant>): set<Group> {
    set v | v in variants :: v.group
  }

  function Groups(rows: seq<Row>, query: Query, context: Context): set<Group> {
    set row, g | row in rows && g in GroupsIn(Variants(row, query, context)) :: g
  }

  /** `aggregate_rows`, as the groups of its output and their metrics. */
  function Aggregated(arith: Arithmetic, rows: seq<Row>, query: Query, context: Context): map<Group, Metrics> {
    map g | g in Groups(rows, query, context) :: Finished(arith, Accumulated(arith, PushesTo(rows, query, context, g)))
  }

  /**
   Aggregates are the same for every order of the rows, whatever addition does: every
   accumulator sorts its values before folding them.
   */
  lemma {:induction false} AggregatesPermuted(arith: Arithmetic, a: seq<Row>, b: seq<Row>, query: Query, context: Context)
    requires multiset(a) == multiset(b)
    ensures Aggregated(arith, a, query, context) == Aggregated(arith, b, query, context)
  {
    hide Finished, Accumulated, Variants, Extract;
    assert Groups(a, query, context) == Groups(b, query, context) by { SameGroups(a, b, query, context); }
    forall g
      ensures Finished(arith, Accumulated(arith, PushesTo(a, query, context, g)))
           == Finished(arith, Accumulated(arith, PushesTo(b, query, context, g)))
    {
      ExtractPermuted(a, b, PushesOf(query, context, g));
      FinishedPermuted(arith, PushesTo(a, query, context, g), PushesTo(b, query, context, g));
    }
    hide PushesTo, Groups;
  }

  lemma {:induction false} SameGroups(a: seq<Row>, b: seq<Row>, query: Query, context: Context)
    requires multiset(a) == multiset(b)
    ensures Groups(a, query, context) == Groups(b, query, context)
  {
    forall row
      ensures row in a <==> row in b
    {
      assert row in a <==> row in multiset(a);
      assert row in b <==> row in multiset(b);
    }
  }
}
