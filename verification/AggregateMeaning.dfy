/**
 What grouped statistics are, read off the rows: which rows belong to a group, how often,
 and which of their fields feed which statistic.  Accumulating is shown to compute exactly
 this (src/query/aggregates.rs).
 */
module AggregateMeaning {
  import opened Wrappers
  import opened Ordering
  import opened Aggregates
  import BitArithmetic

  // ---- the groups of a row ----

  /** The size of a time bucket: the one asked for, at least a nanosecond, or an hour. */
  predicate BucketSize(query: Query, size: int) {
    size == if query.bucketNanos.None? then 3_600_000_000_000 else if query.bucketNanos.value < 1 then 1 else query.bucketNanos.value
  }

  function ScoresOf(row: Row, context: Context): seq<Feedback> {
    if row.key in context.feedback then context.feedback[row.key] else []
  }

  predicate HasTags(row: Row, context: Context) {
    row.key in context.tags && context.tags[row.key] != []
  }

  /** The `n`-th value the row offers for one thing to group by. */
  ghost predicate Offers(by_: GroupBy, row: Row, query: Query, context: Context, n: nat, value: GroupValue) {
    match by_
    case ByProject => n == 0 && value == Text(row.key.project)
    case ByTimeBucket => n == 0 && exists size, start ::
        BucketSize(query, size) && start % size == 0 && start <= row.start < start + size && value == BucketStart(start)
    case ByRunType => n == 0 && value == Text(row.runType)
    case ByTag =>
      if HasTags(row, context) then n < |context.tags[row.key]| && value == Text(context.tags[row.key][n])
      else n == 0 && value == Text("untagged")
    case ByModel => n == 0 && value == Text(if row.model.Some? then row.model.value else "unknown")
    case ByProvider => n == 0 && value == Text(if row.provider.Some? then row.provider.value else "unknown")
    case ByError => n == 0 && value == Flag(row.status == "error")
    case ByFeedbackKey =>
      && n < |ScoresOf(row, context)| && (query.feedbackKeys == [] || ScoresOf(row, context)[n].key in query.feedbackKeys)
      && value == Text(ScoresOf(row, context)[n].key)
  }

  /** One offered value for everything to group by, by number. */
  type Choice = seq<nat>

  ghost predicate Valid(row: Row, query: Query, context: Context, groupBy: seq<GroupBy>, choice: Choice) {
    |choice| == |groupBy| && forall p :: 0 <= p < |groupBy| ==> Offered(groupBy[p], row, query, context, choice[p])
  }

  ghost predicate Offered(by_: GroupBy, row: Row, query: Query, context: Context, n: nat) {
    exists value :: Offers(by_, row, query, context, n, value)
  }

  /** The last place of a thing in the list. */
  ghost predicate LastPlace(groupBy: seq<GroupBy>, p: int) {
    0 <= p < |groupBy| && forall q :: p < q < |groupBy| ==> groupBy[q] != groupBy[p]
  }

  /** What is chosen last for a thing to group by is the group's value of it. */
  ghost predicate GroupIs(row: Row, query: Query, context: Context, groupBy: seq<GroupBy>, choice: Choice, group: Group)
    requires |choice| == |groupBy|
  {
    && (forall d :: d in group.values <==> d in groupBy)
    && forall p :: LastPlace(groupBy, p) ==> Offers(groupBy[p], row, query, context, choice[p], group.values[groupBy[p]])
  }

  /** The scores that count for a choice: the chosen one when grouping by feedback, else all with an asked key. */
  ghost predicate FeedbackIs(row: Row, query: Query, context: Context, groupBy: seq<GroupBy>, choice: Choice, scores: seq<Feedback>)
    requires |choice| == |groupBy|
  {
    if ByFeedbackKey in groupBy then
      forall p :: LastPlace(groupBy, p) && groupBy[p] == ByFeedbackKey ==>
        choice[p] < |ScoresOf(row, context)| && scores == [ScoresOf(row, context)[choice[p]]]
    else scores == Asked(ScoresOf(row, context), query.feedbackKeys)
  }

  function Asked(scores: seq<Feedback>, keys: seq<string>): seq<Feedback> {
    if scores == [] then []
    else Asked(scores[..|scores| - 1], keys) + if scores[|scores| - 1].key in keys then [scores[|scores| - 1]] else []
  }

  // ---- the statistics of a group ----

  /** A row's choice, with the scores that count for it. */
  datatype Pick = Pick(row: nat, choice: Choice, scores: seq<Feedback>)

  /** Every choice of every row that gives the group, once. */
  ghost predicate PicksOf(rows: seq<Row>, query: Query, context: Context, group: Group, picks: seq<Pick>) {
    && (forall k :: 0 <= k < |picks| ==> PickFits(rows, query, context, group, picks[k]))
    && (forall k, l :: 0 <= k < l < |picks| ==> picks[k].row != picks[l].row || picks[k].choice != picks[l].choice)
    && forall i: nat, choice :: Gives(rows, query, context, group, i, choice) ==> Picked(picks, i, choice)
  }

  ghost predicate Gives(rows: seq<Row>, query: Query, context: Context, group: Group, i: nat, choice: Choice) {
    i < |rows| && Valid(rows[i], query, context, query.groupBy, choice) && GroupIs(rows[i], query, context, query.groupBy, choice, group)
  }

  ghost predicate PickFits(rows: seq<Row>, query: Query, context: Context, group: Group, pick: Pick) {
    && Gives(rows, query, context, group, pick.row, pick.choice)
    && FeedbackIs(rows[pick.row], query, context, query.groupBy, pick.choice, pick.scores)
  }

  ghost predicate Picked(picks: seq<Pick>, row: int, choice: Choice) {
    exists k :: 0 <= k < |picks| && picks[k].row == row && picks[k].choice == choice
  }

  /** What the picks add up to, one after another. */
  ghost function Tally(picks: seq<Pick>, part: Pick -> multiset<Float>): multiset<Float> {
    if picks == [] then multiset{} else Tally(picks[..|picks| - 1], part) + part(picks[|picks| - 1])
  }

  ghost function Failed(rows: seq<Row>, picks: seq<Pick>): nat {
    if picks == [] then 0
    else
      var last := picks[|picks| - 1];
      Failed(rows, picks[..|picks| - 1]) + if last.row < |rows| && rows[last.row].status == "error" then 1 else 0
  }

  function IfFinite(arith: Arithmetic, value: Float): multiset<Float> {
    if arith.isFinite(value) then multiset{value} else multiset{}
  }

  ghost function LatencyPart(arith: Arithmetic, rows: seq<Row>): Pick -> multiset<Float> {
    (pick: Pick) => if pick.row < |rows| then IfFinite(arith, rows[pick.row].latency) else multiset{}
  }

  ghost function MetricPart(arith: Arithmetic, rows: seq<Row>, k: nat): Pick -> multiset<Float> {
    (pick: Pick) =>
      if pick.row < |rows| && k < |rows[pick.row].metrics| && rows[pick.row].metrics[k].Some?
      then IfFinite(arith, rows[pick.row].metrics[k].value) else multiset{}
  }

  ghost function ScorePart(arith: Arithmetic, key: string): Pick -> multiset<Float> {
    (pick: Pick) => ScoreTally(arith, pick.scores, key)
  }

  ghost function ScoreTally(arith: Arithmetic, scores: seq<Feedback>, key: string): multiset<Float> {
    if scores == [] then multiset{}
    else
      var last := scores[|scores| - 1];
      ScoreTally(arith, scores[..|scores| - 1], key) + if last.key == key then IfFinite(arith, last.score) else multiset{}
  }

  ghost predicate Ascending(values: seq<Float>) {
    forall i, j :: 0 <= i < j < |values| ==> values[i] <= values[j]
  }

  /** The value that a given percentage of the sorted values does not exceed, the rank rounded up. */
  ghost predicate AtPercent(sorted: seq<Float>, percent: nat, value: Float) {
    exists k :: 0 <= k < |sorted| && sorted[k] == value && (|sorted| - 1) * percent <= 100 * k < (|sorted| - 1) * percent + 100
  }

  /** Added up from zero, smallest first. */
  ghost predicate AddsUp(arith: Arithmetic, sorted: seq<Float>, sum: Float) {
    exists sums :: PartialSums(arith, sorted, sums) && sum == sums[|sorted|]
  }

  ghost predicate PartialSums(arith: Arithmetic, sorted: seq<Float>, sums: seq<Float>) {
    |sums| == |sorted| + 1 && sums[0] == arith.zero && forall i :: 0 <= i < |sorted| ==> sums[i + 1] == arith.add(sums[i], sorted[i])
  }

  /** The statistics of some values: none without values, else counted, added, bounded and ranked. */
  ghost predicate StatsOf(arith: Arithmetic, values: multiset<Float>, ranked: bool, stats: Option<Stats>) {
    if |values| == 0 then stats == None
    else stats.Some? && exists sorted :: multiset(sorted) == values && Ascending(sorted) && StatsAre(arith, sorted, ranked, stats.value)
  }

  ghost predicate StatsAre(arith: Arithmetic, sorted: seq<Float>, ranked: bool, s: Stats) {
    && s.count == |sorted| && AddsUp(arith, sorted, s.sum) && s.avg == arith.divide(s.sum, |sorted|)
    && s.min in sorted && s.max in sorted && (forall x :: x in sorted ==> s.min <= x <= s.max)
    && (s.p50.Some? <==> ranked) && (s.p95.Some? <==> ranked) && (s.p99.Some? <==> ranked)
    && (ranked ==> AtPercent(sorted, 50, s.p50.value) && AtPercent(sorted, 95, s.p95.value) && AtPercent(sorted, 99, s.p99.value))
  }

  /** How many of the values fall into a band; the six named ones are always listed. */
  ghost predicate BandsOf(arith: Arithmetic, values: multiset<Float>, bands: map<string, nat>) {
    && (forall name :: name in bands <==>
          name in {"lt_0", "0_to_0_25", "0_25_to_0_5", "0_5_to_0_75", "0_75_to_1", "gt_1"} || exists x :: x in values && arith.band(x) == name)
    && exists list :: multiset(list) == values && CountsBands(arith, list, bands)
  }

  ghost predicate CountsBands(arith: Arithmetic, list: seq<Float>, bands: map<string, nat>) {
    forall name :: name in bands ==> bands[name] == InBand(arith, list, name)
  }

  ghost function InBand(arith: Arithmetic, list: seq<Float>, name: string): nat {
    if list == [] then 0 else InBand(arith, list[..|list| - 1], name) + if arith.band(list[|list| - 1]) == name then 1 else 0
  }

  ghost predicate MetricsOf(arith: Arithmetic, rows: seq<Row>, picks: seq<Pick>, m: Metrics) {
    && m.count == |picks| && m.errors == Failed(rows, picks) && m.errorRate == arith.ratio(m.errors, m.count)
    && StatsOf(arith, Tally(picks, LatencyPart(arith, rows)), true, m.latency)
    && (forall k: nat :: k in m.metrics <==> k < 8)
    && (forall k: nat :: k < 8 ==> StatsOf(arith, Tally(picks, MetricPart(arith, rows, k)), k == 6, m.metrics[k]))
    && (forall key :: key in m.feedback <==> Scored(picks, key))
    && (forall key :: key in m.feedback ==>
          && StatsOf(arith, Tally(picks, ScorePart(arith, key)), true, m.feedback[key].stats)
          && BandsOf(arith, Tally(picks, ScorePart(arith, key)), m.feedback[key].distribution))
  }

  ghost predicate Scored(picks: seq<Pick>, key: string) {
    exists k, n :: 0 <= k < |picks| && 0 <= n < |picks[k].scores| && picks[k].scores[n].key == key
  }

  /** A group is listed if some choice of some row gives it, and its metrics are those of all such choices. */
  ghost predicate Means(arith: Arithmetic, rows: seq<Row>, query: Query, context: Context, output: map<Group, Metrics>) {
    forall group :: GroupMeans(arith, rows, query, context, output, group)
  }

  ghost predicate GroupMeans(arith: Arithmetic, rows: seq<Row>, query: Query, context: Context, output: map<Group, Metrics>, group: Group) {
    exists picks ::
      && PicksOf(rows, query, context, group, picks)
      && (group in output <==> picks != [])
      && (group in output ==> MetricsOf(arith, rows, picks, output[group]))
  }

  // ---- statistics ----

  lemma {:induction false} RankIs(count: nat, percent: nat)
    requires count > 0 && percent <= 100
    ensures var k := PercentileIndex(count, percent); (count - 1) * percent <= 100 * k < (count - 1) * percent + 100
  {
    var m := (count - 1) * percent;
    assert m <= (count - 1) * 100 by { Times(count - 1, percent, 100); }
  }

  lemma {:induction false} Times(a: nat, b: nat, c: nat)
    requires b <= c
    ensures a * b <= a * c
  {
    assert a * (c - b) >= 0;
  }

  lemma {:induction false} PercentAt(sorted: seq<Float>, percent: nat)
    requires sorted != [] && percent <= 100
    ensures AtPercent(sorted, percent, Percentile(sorted, percent))
  {
    RankIs(|sorted|, percent);
    hide PercentileIndex;
    assert sorted[PercentileIndex(|sorted|, percent)] == Percentile(sorted, percent);
  }

  lemma {:induction false} SumAdds(arith: Arithmetic, sorted: seq<Float>)
    ensures AddsUp(arith, sorted, Sum(arith, sorted))
  {
    var sums := SumsOf(arith, sorted);
  }

  lemma {:induction false} SumsOf(arith: Arithmetic, sorted: seq<Float>) returns (sums: seq<Float>)
    ensures PartialSums(arith, sorted, sums) && sums[|sorted|] == Sum(arith, sorted)
  {
    if sorted == [] {
      sums := [arith.zero];
    } else {
      var front := SumsOf(arith, sorted[..|sorted| - 1]);
      sums := front + [Sum(arith, sorted)];
    }
  }

  lemma {:induction false} SortedAscends(values: seq<Float>)
    ensures multiset(SortFloats(values)) == multiset(values) && Ascending(SortFloats(values))
  {
    FloatLeqTotal();
    SortByCorrect(values, FloatLeq);
    hide SortBy;
    var sorted := SortFloats(values);
    forall i, j | 0 <= i < j < |sorted|
      ensures sorted[i] <= sorted[j]
    {
      assert FloatLeq(sorted[i], sorted[j]);
    }
  }

  lemma {:induction false} EndsBound(sorted: seq<Float>)
    requires sorted != [] && Ascending(sorted)
    ensures sorted[0] in sorted && sorted[|sorted| - 1] in sorted
    ensures forall x :: x in sorted ==> sorted[0] <= x <= sorted[|sorted| - 1]
  {
  }

  /** A summary is the statistics of its values. */
  lemma {:induction false} SummaryMeans(arith: Arithmetic, values: seq<Float>, ranked: bool)
    ensures StatsOf(arith, multiset(values), ranked, Summary(arith, values, ranked))
  {
    assert |multiset(values)| == |values|;
    if values != [] {
      SortedAscends(values);
      SortedStats(arith, values, ranked);
      hide SortFloats, StatsAre, Summary, Ascending;
    }
  }

  lemma {:induction false} SortedStats(arith: Arithmetic, values: seq<Float>, ranked: bool)
    requires values != []
    ensures Summary(arith, values, ranked).Some?
    ensures StatsAre(arith, SortFloats(values), ranked, Summary(arith, values, ranked).value)
  {
    var sorted := SortFloats(values);
    SortedAscends(values);
    SumAdds(arith, sorted);
    PercentAt(sorted, 50);
    PercentAt(sorted, 95);
    PercentAt(sorted, 99);
    EndsBound(sorted);
    hide SortFloats, Sum, AddsUp, Percentile, AtPercent, Ascending;
  }

  lemma {:induction false} DistributionCounts(arith: Arithmetic, list: seq<Float>)
    ensures var bands := Distribution(arith, list);
      && CountsBands(arith, list, bands)
      && (forall name :: name in bands <==>
            name in {"lt_0", "0_to_0_25", "0_25_to_0_5", "0_5_to_0_75", "0_75_to_1", "gt_1"} || exists x :: x in list && arith.band(x) == name)
      && (forall name :: name !in bands ==> InBand(arith, list, name) == 0)
  {
    if list == [] {
      assert forall name :: InBand(arith, list, name) == 0;
    } else {
      var front, last := list[..|list| - 1], list[|list| - 1];
      DistributionCounts(arith, front);
      assert list == front + [last];
      var before, bands := Distribution(arith, front), Distribution(arith, list);
      hide Distribution;
      forall name
        ensures InBand(arith, list, name) == InBand(arith, front, name) + if arith.band(last) == name then 1 else 0
      {
      }
      assert bands == before[arith.band(last) := (if arith.band(last) in before then before[arith.band(last)] else 0) + 1] by {
        BandsStep(arith, list);
      }
      hide InBand;
      assert (exists x :: x in list && arith.band(x) == arith.band(last)) by { assert last in list; }
    }
  }

  lemma {:induction false} BandsStep(arith: Arithmetic, list: seq<Float>)
    requires list != []
    ensures var before, band := Distribution(arith, list[..|list| - 1]), arith.band(list[|list| - 1]);
            Distribution(arith, list) == before[band := (if band in before then before[band] else 0) + 1]
  {
  }

  lemma {:induction false} BandsMean(arith: Arithmetic, values: seq<Float>)
    ensures BandsOf(arith, multiset(values), Distribution(arith, SortFloats(values)))
  {
    var sorted := SortFloats(values);
    SortedAscends(values);
    DistributionCounts(arith, sorted);
    hide SortFloats, Distribution, CountsBands, Ascending;
    forall x
      ensures x in sorted <==> x in multiset(values)
    {
      assert x in sorted <==> x in multiset(sorted);
    }
  }

  // ---- choices ----

  /** The numbers of what a row offers, and the values. */
  ghost predicate Options(by_: GroupBy, row: Row, query: Query, context: Context, numbers: seq<nat>, values: seq<GroupValue>) {
    && |numbers| == |values|
    && (forall k :: 0 <= k < |numbers| ==> Offers(by_, row, query, context, numbers[k], values[k]))
    && (forall k, l :: 0 <= k < l < |numbers| ==> numbers[k] != numbers[l])
    && forall n: nat, value :: Offers(by_, row, query, context, n, value) ==> n in numbers
  }

  lemma {:induction false} BucketIs(start: int, size: int, bucket: int)
    requires size > 0
    ensures start / size * size % size == 0 && start / size * size <= start < start / size * size + size
    ensures bucket % size == 0 && bucket <= start < bucket + size ==> bucket == start / size * size
  {
    var q := start / size;
    assert start == q * size + start % size;
    BitArithmetic.DivisionUnique(q * size, size, q, 0);
    if bucket % size == 0 && bucket <= start < bucket + size {
      assert bucket == bucket / size * size;
      BitArithmetic.DivisionUnique(start, size, bucket / size, start - bucket);
    }
  }

  lemma {:induction false} BucketOffered(row: Row, query: Query, context: Context, n: nat, value: GroupValue)
    ensures Offers(ByTimeBucket, row, query, context, n, value) <==>
            n == 0 && value == BucketStart(TimeBucket(row.start, query.bucketNanos))
  {
    var size := if query.bucketNanos.None? then 3_600_000_000_000 else if query.bucketNanos.value < 1 then 1 else query.bucketNanos.value;
    var bucket := TimeBucket(row.start, query.bucketNanos);
    assert bucket == row.start / size * size;
    hide TimeBucket;
    BucketIs(row.start, size, bucket);
    assert BucketSize(query, size);
    if Offers(ByTimeBucket, row, query, context, n, value) {
      var d, start :| BucketSize(query, d) && start % d == 0 && start <= row.start < start + d && value == BucketStart(start);
      BucketIs(row.start, d, start);
    }
  }

  /** The numbers of the scores that are asked for. */
  ghost function AskedNumbers(scores: seq<Feedback>, keys: seq<string>, from: nat): seq<nat> {
    if scores == [] then []
    else (if keys == [] || scores[0].key in keys then [from] else []) + AskedNumbers(scores[1..], keys, from + 1)
  }

  predicate IsAsked(score: Feedback, keys: seq<string>) {
    keys == [] || score.key in keys
  }

  lemma {:induction false} AskedMatch(scores: seq<Feedback>, keys: seq<string>, from: nat, k: nat)
    ensures var numbers, selected := AskedNumbers(scores, keys, from), SelectFeedback(scores, keys, true);
      && |numbers| == |selected|
      && (k < |numbers| ==>
            from <= numbers[k] < from + |scores| && scores[numbers[k] - from] == selected[k] && IsAsked(selected[k], keys))
  {
    if scores != [] {
      AskedUnfold(scores, keys, from);
      var first := IsAsked(scores[0], keys);
      hide AskedNumbers, SelectFeedback;
      AskedMatch(scores[1..], keys, from + 1, if first && k > 0 then k - 1 else k);
    }
  }

  lemma {:induction false} AskedAscends(scores: seq<Feedback>, keys: seq<string>, from: nat)
    ensures var numbers := AskedNumbers(scores, keys, from);
      && (forall k :: 0 <= k < |numbers| ==> from <= numbers[k])
      && forall k, l :: 0 <= k < l < |numbers| ==> numbers[k] < numbers[l]
  {
    if scores != [] {
      AskedUnfold(scores, keys, from);
      AskedAscends(scores[1..], keys, from + 1);
      hide AskedNumbers;
    }
  }

  lemma {:induction false} AskedComplete(scores: seq<Feedback>, keys: seq<string>, from: nat, n: nat)
    requires n < |scores| && IsAsked(scores[n], keys)
    ensures from + n in AskedNumbers(scores, keys, from)
  {
    AskedUnfold(scores, keys, from);
    hide AskedNumbers, SelectFeedback;
    if n > 0 {
      AskedComplete(scores[1..], keys, from + 1, n - 1);
    }
  }

  lemma {:induction false} AskedUnfold(scores: seq<Feedback>, keys: seq<string>, from: nat)
    requires scores != []
    ensures var first := IsAsked(scores[0], keys);
      && AskedNumbers(scores, keys, from) == (if first then [from] else []) + AskedNumbers(scores[1..], keys, from + 1)
      && SelectFeedback(scores, keys, true) == (if first then [scores[0]] else []) + SelectFeedback(scores[1..], keys, true)
  {
  }

  function ScoreValues(scores: seq<Feedback>): seq<GroupValue> {
    seq(|scores|, k requires 0 <= k < |scores| => Text(scores[k].key))
  }

  lemma {:induction false} FeedbackOptions(row: Row, query: Query, context: Context)
    ensures Options(ByFeedbackKey, row, query, context, AskedNumbers(ScoresOf(row, context), query.feedbackKeys, 0),
                    ScoreValues(SelectFeedback(FeedbackOf(row.key, context), query.feedbackKeys, true)))
  {
    var scores, keys := ScoresOf(row, context), query.feedbackKeys;
    assert FeedbackOf(row.key, context) == scores;
    var numbers, values := AskedNumbers(scores, keys, 0), ScoreValues(SelectFeedback(scores, keys, true));
    AskedMatch(scores, keys, 0, 0);
    AskedAscends(scores, keys, 0);
    hide AskedNumbers, SelectFeedback, ScoresOf;
    forall k | 0 <= k < |numbers|
      ensures Offers(ByFeedbackKey, row, query, context, numbers[k], values[k])
    {
      AskedMatch(scores, keys, 0, k);
    }
    forall n: nat, value | Offers(ByFeedbackKey, row, query, context, n, value)
      ensures n in numbers
    {
      AskedComplete(scores, keys, 0, n);
    }
  }

  /** The values a row offers for anything else. */
  function ValuesOf(by_: GroupBy, row: Row, query: Query, context: Context): seq<GroupValue> {
    match by_
    case ByProject => [Text(row.key.project)]
    case ByTimeBucket => [BucketStart(TimeBucket(row.start, query.bucketNanos))]
    case ByRunType => [Text(row.runType)]
    case ByTag => TagValues(row, context)
    case ByModel => [Text(OrUnknown(row.model))]
    case ByProvider => [Text(OrUnknown(row.provider))]
    case ByError => [Flag(row.status == "error")]
    case ByFeedbackKey => []
  }

  function Counting(n: nat): seq<nat> {
    seq(n, i => i)
  }

  lemma {:induction false} PlainOptions(by_: GroupBy, row: Row, query: Query, context: Context)
    requires by_ != ByFeedbackKey
    ensures var values := ValuesOf(by_, row, query, context);
            Options(by_, row, query, context, Counting(|values|), values)
    ensures forall variants :: Expand(variants, by_, row, query, context) == AppendValues(variants, by_, ValuesOf(by_, row, query, context))
  {
    hide AppendValues;
    forall n: nat, value
      ensures Offers(ByTimeBucket, row, query, context, n, value) <==>
              n == 0 && value == BucketStart(TimeBucket(row.start, query.bucketNanos))
    {
      BucketOffered(row, query, context, n, value);
    }
    hide TimeBucket;
    var values := ValuesOf(by_, row, query, context);
    forall n: nat, value | Offers(by_, row, query, context, n, value)
      ensures n in Counting(|values|)
    {
      assert n < |values|;
      assert Counting(|values|)[n] == n;
    }
  }

  // ---- the variants of a row are its choices ----

  /** An option: its value, and its score when grouping by feedback. */
  datatype Offering = Offering(value: GroupValue, score: Option<Feedback>)

  function ExtendBy(v: Variant, by_: GroupBy, o: Offering): Variant {
    Variant(With(v.group, by_, o.value), if o.score.Some? then [o.score.value] else v.feedback)
  }

  function GrowAll(variants: seq<Variant>, by_: GroupBy, options: seq<Offering>): seq<Variant> {
    if variants == [] then []
    else seq(|options|, i requires 0 <= i < |options| => ExtendBy(variants[0], by_, options[i])) + GrowAll(variants[1..], by_, options)
  }

  function Extended(choices: seq<Choice>, numbers: seq<nat>): seq<Choice> {
    if choices == [] then []
    else seq(|numbers|, i requires 0 <= i < |numbers| => choices[0] + [numbers[i]]) + Extended(choices[1..], numbers)
  }

  function PlainOption(values: seq<GroupValue>): seq<Offering> {
    seq(|values|, i requires 0 <= i < |values| => Offering(values[i], None))
  }

  function ScoreOption(scores: seq<Feedback>): seq<Offering> {
    seq(|scores|, i requires 0 <= i < |scores| => Offering(Text(scores[i].key), Some(scores[i])))
  }

  lemma {:induction false} AppendGrows(variants: seq<Variant>, by_: GroupBy, values: seq<GroupValue>)
    ensures AppendValues(variants, by_, values) == GrowAll(variants, by_, PlainOption(values))
  {
    if variants != [] {
      AppendGrows(variants[1..], by_, values);
      var v := variants[0];
      assert seq(|values|, i requires 0 <= i < |values| => v.(group := With(v.group, by_, values[i])))
          == seq(|values|, i requires 0 <= i < |values| => ExtendBy(v, by_, PlainOption(values)[i]));
    }
  }

  lemma {:induction false} FeedbackGrows(variants: seq<Variant>, scores: seq<Feedback>)
    ensures ExpandFeedback(variants, scores) == GrowAll(variants, ByFeedbackKey, ScoreOption(scores))
  {
    if variants != [] {
      FeedbackGrows(variants[1..], scores);
      var v := variants[0];
      assert seq(|scores|, i requires 0 <= i < |scores| => Variant(With(v.group, ByFeedbackKey, Text(scores[i].key)), [scores[i]]))
          == seq(|scores|, i requires 0 <= i < |scores| => ExtendBy(v, ByFeedbackKey, ScoreOption(scores)[i]));
    }
  }

  /** Where a grown variant and its choice come from. */
  lemma {:induction false} GrownFrom(variants: seq<Variant>, choices: seq<Choice>, by_: GroupBy, options: seq<Offering>, numbers: seq<nat>, k: nat)
    returns (j: nat, i: nat)
    requires |variants| == |choices| && |options| == |numbers|
    ensures |GrowAll(variants, by_, options)| == |Extended(choices, numbers)|
    ensures k < |Extended(choices, numbers)| ==>
      && j < |variants| && i < |options|
      && GrowAll(variants, by_, options)[k] == ExtendBy(variants[j], by_, options[i])
      && Extended(choices, numbers)[k] == choices[j] + [numbers[i]]
  {
    j, i := 0, 0;
    if variants != [] {
      hide ExtendBy;
      var a, b := GrownFrom(variants[1..], choices[1..], by_, options, numbers, if k >= |options| then k - |options| else 0);
      if k < |options| {
        i := k;
      } else {
        j, i := a + 1, b;
      }
    }
  }

  lemma {:induction false} ExtendedHas(choices: seq<Choice>, numbers: seq<nat>, j: nat, i: nat)
    requires j < |choices| && i < |numbers|
    ensures choices[j] + [numbers[i]] in Extended(choices, numbers)
  {
    var first := seq(|numbers|, k requires 0 <= k < |numbers| => choices[0] + [numbers[k]]);
    if j == 0 {
      assert first[i] == choices[0] + [numbers[i]];
    } else {
      ExtendedHas(choices[1..], numbers, j - 1, i);
    }
  }

  /** The choices of a tail, extended, come from the tail. */
  lemma {:induction false} ExtendedFrom(choices: seq<Choice>, numbers: seq<nat>, k: nat) returns (j: nat, i: nat)
    requires k < |Extended(choices, numbers)|
    ensures j < |choices| && i < |numbers| && Extended(choices, numbers)[k] == choices[j] + [numbers[i]]
  {
    if k < |numbers| {
      j, i := 0, k;
    } else {
      var a, b := ExtendedFrom(choices[1..], numbers, k - |numbers|);
      j, i := a + 1, b;
    }
  }

  ghost predicate AllDifferent<T>(xs: seq<T>) {
    forall k, l :: 0 <= k < l < |xs| ==> xs[k] != xs[l]
  }

  lemma {:induction false} LastSplits(c: Choice, m: nat, d: Choice, n: nat)
    ensures c + [m] == d + [n] <==> c == d && m == n
  {
    if c + [m] == d + [n] {
      assert c == (c + [m])[..|c|] && d == (d + [n])[..|d|];
      assert (c + [m])[|c|] == m && (d + [n])[|d|] == n;
    }
  }

  lemma {:induction false} ExtendedDiffers(choices: seq<Choice>, numbers: seq<nat>)
    requires AllDifferent(choices) && AllDifferent(numbers)
    ensures AllDifferent(Extended(choices, numbers))
  {
    if choices != [] {
      ExtendedDiffers(choices[1..], numbers);
      var first := seq(|numbers|, i requires 0 <= i < |numbers| => choices[0] + [numbers[i]]);
      var rest := Extended(choices[1..], numbers);
      assert Extended(choices, numbers) == first + rest;
      hide Extended;
      forall k, l | 0 <= k < l < |first + rest|
        ensures (first + rest)[k] != (first + rest)[l]
      {
        if l < |first| {
          LastSplits(choices[0], numbers[k], choices[0], numbers[l]);
        } else if k < |first| {
          var j, i := ExtendedFrom(choices[1..], numbers, l - |first|);
          LastSplits(choices[0], numbers[k], choices[j + 1], numbers[i]);
        }
      }
    }
  }

  /** The variant shows the choice so far. */
  ghost predicate Made(row: Row, query: Query, context: Context, groupBy: seq<GroupBy>, v: Variant, choice: Choice) {
    && Valid(row, query, context, groupBy, choice) && GroupIs(row, query, context, groupBy, choice, v.group)
    && if ByFeedbackKey in groupBy then FeedbackIs(row, query, context, groupBy, choice, v.feedback) else v.feedback == []
  }

  ghost predicate Lists(row: Row, query: Query, context: Context, groupBy: seq<GroupBy>, variants: seq<Variant>, choices: seq<Choice>) {
    && |variants| == |choices| && AllDifferent(choices)
    && (forall k :: 0 <= k < |choices| ==> Made(row, query, context, groupBy, variants[k], choices[k]))
    && forall choice :: Valid(row, query, context, groupBy, choice) ==> choice in choices
  }

  lemma {:induction false} NothingChosen(row: Row, query: Query, context: Context)
    ensures Lists(row, query, context, [], [Variant(Group(map[]), [])], [[]])
  {
    var choices: seq<Choice> := [[]];
    assert choices[0] == [];
    assert forall choice :: Valid(row, query, context, [], choice) ==> choice == [];
  }

  lemma {:induction false} LastPlaces(groupBy: seq<GroupBy>, by_: GroupBy, p: int)
    ensures LastPlace(groupBy + [by_], p) <==> p == |groupBy| || (LastPlace(groupBy, p) && groupBy[p] != by_)
  {
    var more := groupBy + [by_];
    assert more[|groupBy|] == by_ && forall q :: 0 <= q < |groupBy| ==> more[q] == groupBy[q];
  }

  /** One more thing to group by: the option goes into the variant and its number into the choice. */
  lemma {:induction false} MadeMore(row: Row, query: Query, context: Context, groupBy: seq<GroupBy>, by_: GroupBy, v: Variant, choice: Choice, n: nat, o: Offering)
    requires Made(row, query, context, groupBy, v, choice) && Offers(by_, row, query, context, n, o.value)
    requires if by_ == ByFeedbackKey then n < |ScoresOf(row, context)| && o.score == Some(ScoresOf(row, context)[n]) else o.score == None
    ensures Made(row, query, context, groupBy + [by_], ExtendBy(v, by_, o), choice + [n])
  {
    ValidMore(row, query, context, groupBy, by_, v, choice, n, o);
    GroupMore(row, query, context, groupBy, by_, v, choice, n, o);
    FeedbackMore(row, query, context, groupBy, by_, v, choice, n, o);
    hide Valid, GroupIs, FeedbackIs, ExtendBy;
  }

  lemma {:induction false} ValidMore(row: Row, query: Query, context: Context, groupBy: seq<GroupBy>, by_: GroupBy, v: Variant, choice: Choice, n: nat, o: Offering)
    requires Valid(row, query, context, groupBy, choice) && Offers(by_, row, query, context, n, o.value)
    ensures Valid(row, query, context, groupBy + [by_], choice + [n])
  {
    assert Offered(by_, row, query, context, n);
    hide Offers, Offered;
  }

  lemma {:induction false} GroupMore(row: Row, query: Query, context: Context, groupBy: seq<GroupBy>, by_: GroupBy, v: Variant, choice: Choice, n: nat, o: Offering)
    requires |choice| == |groupBy| && GroupIs(row, query, context, groupBy, choice, v.group) && Offers(by_, row, query, context, n, o.value)
    ensures GroupIs(row, query, context, groupBy + [by_], choice + [n], ExtendBy(v, by_, o).group)
  {
    var more, longer, w := groupBy + [by_], choice + [n], ExtendBy(v, by_, o);
    hide Offers, LastPlace;
    forall p | LastPlace(more, p)
      ensures 0 <= p < |more| && more[p] in w.group.values && Offers(more[p], row, query, context, longer[p], w.group.values[more[p]])
    {
      LastPlaces(groupBy, by_, p);
      PlaceInside(more, p);
    }
  }

  lemma {:induction false} FeedbackMore(row: Row, query: Query, context: Context, groupBy: seq<GroupBy>, by_: GroupBy, v: Variant, choice: Choice, n: nat, o: Offering)
    requires |choice| == |groupBy|
    requires if ByFeedbackKey in groupBy then FeedbackIs(row, query, context, groupBy, choice, v.feedback) else v.feedback == []
    requires if by_ == ByFeedbackKey then n < |ScoresOf(row, context)| && o.score == Some(ScoresOf(row, context)[n]) else o.score == None
    ensures var w := ExtendBy(v, by_, o);
            if ByFeedbackKey in groupBy + [by_] then FeedbackIs(row, query, context, groupBy + [by_], choice + [n], w.feedback) else w.feedback == []
  {
    var more, longer, w := groupBy + [by_], choice + [n], ExtendBy(v, by_, o);
    hide LastPlace, ScoresOf;
    if ByFeedbackKey in more {
      forall p | LastPlace(more, p) && 0 <= p < |more| && more[p] == ByFeedbackKey
        ensures longer[p] < |ScoresOf(row, context)| && w.feedback == [ScoresOf(row, context)[longer[p]]]
      {
        LastPlaces(groupBy, by_, p);
        assert p < |groupBy| ==> groupBy[p] == ByFeedbackKey && ByFeedbackKey in groupBy;
      }
      FeedbackChosen(row, query, context, more, longer, w.feedback);
    }
  }

  lemma {:induction false} PlaceInside(groupBy: seq<GroupBy>, p: int)
    requires LastPlace(groupBy, p)
    ensures 0 <= p < |groupBy|
  {
  }

  lemma {:induction false} FeedbackChosen(row: Row, query: Query, context: Context, groupBy: seq<GroupBy>, choice: Choice, scores: seq<Feedback>)
    requires |choice| == |groupBy| && ByFeedbackKey in groupBy
    requires forall p :: LastPlace(groupBy, p) && 0 <= p < |groupBy| && groupBy[p] == ByFeedbackKey ==>
      choice[p] < |ScoresOf(row, context)| && scores == [ScoresOf(row, context)[choice[p]]]
    ensures FeedbackIs(row, query, context, groupBy, choice, scores)
  {
    hide ScoresOf;
  }

  /** The options of a thing to group by, with the numbers of the choices. */
  ghost predicate Optional(row: Row, query: Query, context: Context, by_: GroupBy, numbers: seq<nat>, options: seq<Offering>) {
    && |numbers| == |options| && AllDifferent(numbers)
    && (forall k :: 0 <= k < |numbers| ==> OptionFits(row, query, context, by_, numbers[k], options[k]))
    && forall n: nat :: Offered(by_, row, query, context, n) ==> n in numbers
  }

  ghost predicate OptionFits(row: Row, query: Query, context: Context, by_: GroupBy, n: nat, o: Offering) {
    && Offers(by_, row, query, context, n, o.value)
    && if by_ == ByFeedbackKey then n < |ScoresOf(row, context)| && o.score == Some(ScoresOf(row, context)[n]) else o.score == None
  }

  lemma {:induction false} OptionsFor(row: Row, query: Query, context: Context, by_: GroupBy) returns (numbers: seq<nat>, options: seq<Offering>)
    ensures Optional(row, query, context, by_, numbers, options)
    ensures forall variants :: Expand(variants, by_, row, query, context) == GrowAll(variants, by_, options)
  {
    if by_ == ByFeedbackKey {
      var scores := ScoresOf(row, context);
      var selected := SelectFeedback(FeedbackOf(row.key, context), query.feedbackKeys, true);
      numbers, options := AskedNumbers(scores, query.feedbackKeys, 0), ScoreOption(selected);
      FeedbackOptions(row, query, context);
      hide GrowAll, ExpandFeedback, SelectFeedback, AskedNumbers;
      forall variants
        ensures Expand(variants, by_, row, query, context) == GrowAll(variants, by_, options)
      {
        FeedbackGrows(variants, selected);
      }
      assert FeedbackOf(row.key, context) == scores;
      forall k | 0 <= k < |numbers|
        ensures OptionFits(row, query, context, by_, numbers[k], options[k])
      {
        AskedMatch(scores, query.feedbackKeys, 0, k);
        assert Offers(by_, row, query, context, numbers[k], ScoreValues(selected)[k]);
      }
    } else {
      var values := ValuesOf(by_, row, query, context);
      numbers, options := Counting(|values|), PlainOption(values);
      PlainOptions(by_, row, query, context);
      hide GrowAll, AppendValues, Expand, Offers, ValuesOf;
      forall variants
        ensures Expand(variants, by_, row, query, context) == GrowAll(variants, by_, options)
      {
        AppendGrows(variants, by_, values);
      }
    }
  }

  lemma {:induction false} ValidFront(row: Row, query: Query, context: Context, groupBy: seq<GroupBy>, by_: GroupBy, choice: Choice)
    requires Valid(row, query, context, groupBy + [by_], choice)
    ensures choice != [] && Valid(row, query, context, groupBy, choice[..|choice| - 1])
    ensures Offered(by_, row, query, context, choice[|choice| - 1])
  {
    hide Offered;
    var more := groupBy + [by_];
    assert more[|groupBy|] == by_;
    forall p | 0 <= p < |groupBy|
      ensures Offered(groupBy[p], row, query, context, choice[..|choice| - 1][p])
    {
      assert more[p] == groupBy[p];
    }
  }

  lemma {:induction false} MadeAt(
    row: Row, query: Query, context: Context, groupBy: seq<GroupBy>, by_: GroupBy, variants: seq<Variant>, choices: seq<Choice>,
    numbers: seq<nat>, options: seq<Offering>, j: nat, i: nat)
    requires Lists(row, query, context, groupBy, variants, choices) && Optional(row, query, context, by_, numbers, options)
    requires j < |choices| && i < |numbers|
    ensures |variants| == |choices| && |numbers| == |options|
    ensures Made(row, query, context, groupBy + [by_], ExtendBy(variants[j], by_, options[i]), choices[j] + [numbers[i]])
  {
    hide Made, Valid, Offers, Offered, ExtendBy, AllDifferent;
    assert OptionFits(row, query, context, by_, numbers[i], options[i]);
    MadeMore(row, query, context, groupBy, by_, variants[j], choices[j], numbers[i], options[i]);
  }

  lemma {:induction false} ChoiceListed(
    row: Row, query: Query, context: Context, groupBy: seq<GroupBy>, by_: GroupBy, variants: seq<Variant>, choices: seq<Choice>,
    numbers: seq<nat>, options: seq<Offering>, choice: Choice)
    requires Lists(row, query, context, groupBy, variants, choices) && Optional(row, query, context, by_, numbers, options)
    requires Valid(row, query, context, groupBy + [by_], choice)
    ensures choice in Extended(choices, numbers)
  {
    hide *;
    ValidFront(row, query, context, groupBy, by_, choice);
    var front, last := choice[..|choice| - 1], choice[|choice| - 1];
    assert choice == front + [last];
    var j, i := FrontListed(row, query, context, groupBy, by_, variants, choices, numbers, options, front, last);
    ExtendedHas(choices, numbers, j, i);
  }

  lemma {:induction false} FrontListed(
    row: Row, query: Query, context: Context, groupBy: seq<GroupBy>, by_: GroupBy, variants: seq<Variant>, choices: seq<Choice>,
    numbers: seq<nat>, options: seq<Offering>, front: Choice, last: nat) returns (j: nat, i: nat)
    requires Lists(row, query, context, groupBy, variants, choices) && Optional(row, query, context, by_, numbers, options)
    requires Valid(row, query, context, groupBy, front) && Offered(by_, row, query, context, last)
    ensures j < |choices| && choices[j] == front && i < |numbers| && numbers[i] == last
  {
    hide Made, Valid, Offered, OptionFits, AllDifferent;
    assert front in choices && last in numbers;
    j :| 0 <= j < |choices| && choices[j] == front;
    i :| 0 <= i < |numbers| && numbers[i] == last;
  }

  lemma {:induction false} ListsParts(
    row: Row, query: Query, context: Context, groupBy: seq<GroupBy>, by_: GroupBy, variants: seq<Variant>, choices: seq<Choice>,
    numbers: seq<nat>, options: seq<Offering>)
    requires Lists(row, query, context, groupBy, variants, choices) && Optional(row, query, context, by_, numbers, options)
    ensures |variants| == |choices| && |numbers| == |options| && AllDifferent(choices) && AllDifferent(numbers)
  {
    hide Made, Valid, Offered, OptionFits, AllDifferent;
  }

  lemma {:induction false} NowLists(row: Row, query: Query, context: Context, groupBy: seq<GroupBy>, variants: seq<Variant>, choices: seq<Choice>)
    requires |variants| == |choices| && AllDifferent(choices)
    requires forall k :: 0 <= k < |choices| ==> Made(row, query, context, groupBy, variants[k], choices[k])
    requires forall choice :: Valid(row, query, context, groupBy, choice) ==> choice in choices
    ensures Lists(row, query, context, groupBy, variants, choices)
  {
    hide Made, Valid, AllDifferent;
  }

  lemma {:induction false} ListsMore(
    row: Row, query: Query, context: Context, groupBy: seq<GroupBy>, by_: GroupBy, variants: seq<Variant>, choices: seq<Choice>,
    numbers: seq<nat>, options: seq<Offering>)
    requires Lists(row, query, context, groupBy, variants, choices) && Optional(row, query, context, by_, numbers, options)
    ensures Lists(row, query, context, groupBy + [by_], GrowAll(variants, by_, options), Extended(choices, numbers))
  {
    hide *;
    var grown, longer := GrowAll(variants, by_, options), Extended(choices, numbers);
    ListsParts(row, query, context, groupBy, by_, variants, choices, numbers, options);
    ExtendedDiffers(choices, numbers);
    var _, _ := GrownFrom(variants, choices, by_, options, numbers, |longer|);
    forall k | 0 <= k < |longer|
      ensures Made(row, query, context, groupBy + [by_], grown[k], longer[k])
    {
      var j, i := GrownFrom(variants, choices, by_, options, numbers, k);
      MadeAt(row, query, context, groupBy, by_, variants, choices, numbers, options, j, i);
    }
    forall choice | Valid(row, query, context, groupBy + [by_], choice)
      ensures choice in longer
    {
      ChoiceListed(row, query, context, groupBy, by_, variants, choices, numbers, options, choice);
    }
    NowLists(row, query, context, groupBy + [by_], grown, longer);
  }

  lemma {:induction false} ListAll(
    row: Row, query: Query, context: Context, done: seq<GroupBy>, todo: seq<GroupBy>, variants: seq<Variant>, choices: seq<Choice>)
    returns (all: seq<Choice>)
    requires Lists(row, query, context, done, variants, choices)
    ensures Lists(row, query, context, done + todo, ExpandAll(variants, todo, row, query, context), all)
    decreases |todo|
  {
    if todo == [] {
      assert done + todo == done;
      all := choices;
    } else {
      var numbers, options := OptionsFor(row, query, context, todo[0]);
      assert (done + [todo[0]]) + todo[1..] == done + todo;
      hide Lists, Expand, GrowAll, Optional;
      ListsMore(row, query, context, done, todo[0], variants, choices, numbers, options);
      all := ListAll(row, query, context, done + [todo[0]], todo[1..], GrowAll(variants, todo[0], options), Extended(choices, numbers));
    }
  }

  lemma {:induction false} AskedIsSelected(scores: seq<Feedback>, keys: seq<string>)
    ensures Asked(scores, keys) == SelectFeedback(scores, keys, false)
  {
    if scores != [] {
      var n := |scores| - 1;
      AskedIsSelected(scores[..n], keys);
      SelectLast(scores[..n], scores[n], keys);
      assert scores[..n] + [scores[n]] == scores;
    }
  }

  lemma {:induction false} SelectLast(scores: seq<Feedback>, last: Feedback, keys: seq<string>)
    ensures SelectFeedback(scores + [last], keys, false) == SelectFeedback(scores, keys, false) + if last.key in keys then [last] else []
  {
    if scores != [] {
      SelectLast(scores[1..], last, keys);
      assert (scores + [last])[1..] == scores[1..] + [last];
    } else {
      assert [last][1..] == [];
    }
  }

  /** The variants of a row, with the choices they stand for. */
  ghost predicate Shows(row: Row, query: Query, context: Context, v: Variant, choice: Choice) {
    && Valid(row, query, context, query.groupBy, choice) && GroupIs(row, query, context, query.groupBy, choice, v.group)
    && FeedbackIs(row, query, context, query.groupBy, choice, v.feedback)
  }

  lemma {:induction false} VariantsShow(row: Row, query: Query, context: Context) returns (choices: seq<Choice>)
    ensures var variants := Variants(row, query, context);
      && |choices| == |variants| && AllDifferent(choices)
      && (forall k :: 0 <= k < |choices| ==> Shows(row, query, context, variants[k], choices[k]))
      && forall choice :: Valid(row, query, context, query.groupBy, choice) ==> choice in choices
  {
    NothingChosen(row, query, context);
    choices := ListAll(row, query, context, [], query.groupBy, [Variant(Group(map[]), [])], [[]]);
    assert [] + query.groupBy == query.groupBy;
    var expanded := ExpandAll([Variant(Group(map[]), [])], query.groupBy, row, query, context);
    AskedIsSelected(FeedbackOf(row.key, context), query.feedbackKeys);
    assert FeedbackOf(row.key, context) == ScoresOf(row, context);
    hide ExpandAll, Valid, GroupIs, SelectFeedback, AllDifferent, Asked, ScoresOf;
    var variants := Variants(row, query, context);
    forall k | 0 <= k < |choices|
      ensures Shows(row, query, context, variants[k], choices[k])
    {
      assert Made(row, query, context, query.groupBy, expanded[k], choices[k]);
    }
  }

  // ---- the pushes of a group are its picks ----

  lemma {:induction false} OfferedOnce(by_: GroupBy, row: Row, query: Query, context: Context, n: nat, a: GroupValue, b: GroupValue)
    requires Offers(by_, row, query, context, n, a) && Offers(by_, row, query, context, n, b)
    ensures a == b
  {
    if by_ == ByTimeBucket {
      BucketOffered(row, query, context, n, a);
      BucketOffered(row, query, context, n, b);
    }
  }

  lemma {:induction false} SomeLastPlace(groupBy: seq<GroupBy>, by_: GroupBy) returns (p: nat)
    requires by_ in groupBy
    ensures LastPlace(groupBy, p) && groupBy[p] == by_
  {
    var n := |groupBy| - 1;
    if groupBy[n] == by_ {
      p := n;
    } else {
      assert groupBy == groupBy[..n] + [groupBy[n]];
      p := SomeLastPlace(groupBy[..n], by_);
      LastPlaces(groupBy[..n], groupBy[n], p);
    }
  }

  /** A choice gives one group. */
  lemma {:induction false} OneGroup(row: Row, query: Query, context: Context, groupBy: seq<GroupBy>, choice: Choice, a: Group, b: Group)
    requires |choice| == |groupBy|
    requires GroupIs(row, query, context, groupBy, choice, a) && GroupIs(row, query, context, groupBy, choice, b)
    ensures a == b
  {
    hide Offers, LastPlace;
    forall d | d in groupBy
      ensures a.values[d] == b.values[d]
    {
      var p := SomeLastPlace(groupBy, d);
      OfferedOnce(d, row, query, context, choice[p], a.values[d], b.values[d]);
    }
    assert a.values == b.values;
  }

  /** The picks of one row: its variants that give the group. */
  function RowPicks(i: nat, variants: seq<Variant>, choices: seq<Choice>, group: Group): seq<Pick>
    requires |variants| == |choices|
  {
    if variants == [] then []
    else
      var n := |variants| - 1;
      RowPicks(i, variants[..n], choices[..n], group)
      + if variants[n].group == group then [Pick(i, choices[n], variants[n].feedback)] else []
  }

  /** The pushes of a row show its picks. */
  ghost predicate Mirrors(rows: seq<Row>, pushes: seq<Push>, picks: seq<Pick>) {
    |pushes| == |picks| && forall k :: 0 <= k < |picks| ==> picks[k].row < |rows| && pushes[k] == Push(rows[picks[k].row], picks[k].scores)
  }

  lemma {:induction false} RowMirrors(rows: seq<Row>, i: nat, variants: seq<Variant>, choices: seq<Choice>, group: Group)
    requires i < |rows| && |variants| == |choices|
    ensures Mirrors(rows, RowPushes(rows[i], variants, group), RowPicks(i, variants, choices, group))
  {
    if variants != [] {
      RowMirrors(rows, i, variants[..|variants| - 1], choices[..|variants| - 1], group);
    }
  }

  /** A pick of a row is one of its variants, and the other way round. */
  lemma {:induction false} RowPickFrom(i: nat, variants: seq<Variant>, choices: seq<Choice>, group: Group, k: nat) returns (j: nat)
    requires |variants| == |choices| && k < |RowPicks(i, variants, choices, group)|
    ensures j < |variants| && variants[j].group == group
    ensures RowPicks(i, variants, choices, group)[k] == Pick(i, choices[j], variants[j].feedback)
  {
    var n := |variants| - 1;
    var front := RowPicks(i, variants[..n], choices[..n], group);
    if k < |front| {
      j := RowPickFrom(i, variants[..n], choices[..n], group, k);
    } else {
      j := n;
    }
  }

  lemma {:induction false} RowPicked(i: nat, variants: seq<Variant>, choices: seq<Choice>, group: Group, j: nat)
    requires |variants| == |choices| && j < |variants| && variants[j].group == group
    ensures Picked(RowPicks(i, variants, choices, group), i, choices[j])
  {
    var n := |variants| - 1;
    var picks, front := RowPicks(i, variants, choices, group), RowPicks(i, variants[..n], choices[..n], group);
    if j < n {
      RowPicked(i, variants[..n], choices[..n], group, j);
      var k :| 0 <= k < |front| && front[k].row == i && front[k].choice == choices[j];
      assert picks[k] == front[k];
    } else {
      assert picks[|picks| - 1] == Pick(i, choices[n], variants[n].feedback);
    }
  }

  ghost predicate DifferentPicks(picks: seq<Pick>) {
    forall k, l :: 0 <= k < l < |picks| ==> picks[k].row != picks[l].row || picks[k].choice != picks[l].choice
  }

  lemma {:induction false} RowPicksDiffer(i: nat, variants: seq<Variant>, choices: seq<Choice>, group: Group)
    requires |variants| == |choices| && AllDifferent(choices)
    ensures DifferentPicks(RowPicks(i, variants, choices, group))
  {
    if variants != [] {
      var n := |variants| - 1;
      var picks, front := RowPicks(i, variants, choices, group), RowPicks(i, variants[..n], choices[..n], group);
      RowPicksDiffer(i, variants[..n], choices[..n], group);
      forall k, l | 0 <= k < l < |picks|
        ensures picks[k].choice != picks[l].choice || picks[k].row != picks[l].row
      {
        if l == |front| {
          var j := RowPickFrom(i, variants[..n], choices[..n], group, k);
          assert choices[j] != choices[n];
        }
      }
    }
  }

  /** The picks of the first rows. */
  ghost predicate PicksUpTo(rows: seq<Row>, query: Query, context: Context, group: Group, n: nat, picks: seq<Pick>) {
    && (forall k :: 0 <= k < |picks| ==> PickFits(rows, query, context, group, picks[k]) && picks[k].row < n)
    && DifferentPicks(picks)
    && forall i: nat, choice :: i < n && Gives(rows, query, context, group, i, choice) ==> Picked(picks, i, choice)
  }

  lemma {:induction false} RowPicksFit(
    rows: seq<Row>, query: Query, context: Context, group: Group, i: nat, choices: seq<Choice>, k: nat)
    requires i < |rows| && |choices| == |Variants(rows[i], query, context)|
    requires forall j :: 0 <= j < |choices| ==> Shows(rows[i], query, context, Variants(rows[i], query, context)[j], choices[j])
    requires k < |RowPicks(i, Variants(rows[i], query, context), choices, group)|
    ensures PickFits(rows, query, context, group, RowPicks(i, Variants(rows[i], query, context), choices, group)[k])
    ensures RowPicks(i, Variants(rows[i], query, context), choices, group)[k].row == i
  {
    var j := RowPickFrom(i, Variants(rows[i], query, context), choices, group, k);
    hide Variants, Valid, GroupIs, FeedbackIs, RowPicks;
  }

  lemma {:induction false} GivenPicked(
    rows: seq<Row>, query: Query, context: Context, group: Group, i: nat, choices: seq<Choice>, choice: Choice)
    requires i < |rows| && |choices| == |Variants(rows[i], query, context)|
    requires forall j :: 0 <= j < |choices| ==> Shows(rows[i], query, context, Variants(rows[i], query, context)[j], choices[j])
    requires choice in choices && Gives(rows, query, context, group, i, choice)
    ensures Picked(RowPicks(i, Variants(rows[i], query, context), choices, group), i, choice)
  {
    var variants := Variants(rows[i], query, context);
    var j :| 0 <= j < |choices| && choices[j] == choice;
    assert Shows(rows[i], query, context, variants[j], choices[j]);
    OneGroup(rows[i], query, context, query.groupBy, choice, variants[j].group, group);
    hide Variants, Valid, GroupIs, FeedbackIs, RowPicks, Picked;
    RowPicked(i, variants, choices, group, j);
  }

  lemma {:induction false} JoinPicks(
    rows: seq<Row>, query: Query, context: Context, group: Group, n: nat, a: seq<Pick>, b: seq<Pick>)
    requires n < |rows| && PicksUpTo(rows, query, context, group, n, a) && DifferentPicks(b)
    requires forall k :: 0 <= k < |b| ==> PickFits(rows, query, context, group, b[k]) && b[k].row == n
    requires forall choice :: Gives(rows, query, context, group, n, choice) ==> Picked(b, n, choice)
    ensures PicksUpTo(rows, query, context, group, n + 1, a + b)
  {
    hide PickFits, Gives;
    var picks := a + b;
    assert forall k :: 0 <= k < |b| ==> picks[|a| + k] == b[k];
    forall i: nat, choice | i < n + 1 && Gives(rows, query, context, group, i, choice)
      ensures Picked(picks, i, choice)
    {
      if i < n {
        var k :| 0 <= k < |a| && a[k].row == i && a[k].choice == choice;
        assert picks[k] == a[k];
      } else {
        var k :| 0 <= k < |b| && b[k].row == n && b[k].choice == choice;
        assert picks[|a| + k] == b[k];
      }
    }
  }

  lemma {:induction false} JoinMirrors(rows: seq<Row>, pushes: seq<Push>, more: seq<Push>, picks: seq<Pick>, others: seq<Pick>)
    requires Mirrors(rows, pushes, picks) && Mirrors(rows, more, others)
    ensures Mirrors(rows, pushes + more, picks + others)
  {
  }

  lemma {:induction false} PushesUnfold(rows: seq<Row>, query: Query, context: Context, group: Group, n: nat)
    requires n < |rows|
    ensures PushesTo(rows[..n + 1], query, context, group)
         == PushesTo(rows[..n], query, context, group) + RowPushes(rows[n], Variants(rows[n], query, context), group)
  {
    assert rows[..n + 1][..n] == rows[..n];
    hide Variants, RowPushes;
  }

  /** The picks of a group, with the pushes that show them. */
  lemma {:induction false} PicksFor(rows: seq<Row>, query: Query, context: Context, group: Group, n: nat) returns (picks: seq<Pick>)
    requires n <= |rows|
    ensures PicksUpTo(rows, query, context, group, n, picks) && Mirrors(rows, PushesTo(rows[..n], query, context, group), picks)
  {
    if n == 0 {
      picks := [];
    } else {
      hide *;
      var m := n - 1;
      var front := PicksFor(rows, query, context, group, m);
      var choices := VariantsShow(rows[m], query, context);
      var variants := Variants(rows[m], query, context);
      var last := RowPicks(m, variants, choices, group);
      RowMirrors(rows, m, variants, choices, group);
      RowPicksDiffer(m, variants, choices, group);
      forall k | 0 <= k < |last|
        ensures PickFits(rows, query, context, group, last[k]) && last[k].row == m
      {
        RowPicksFit(rows, query, context, group, m, choices, k);
      }
      forall choice | Gives(rows, query, context, group, m, choice)
        ensures Picked(last, m, choice)
      {
        GivenIsValid(rows, query, context, group, m, choice);
        GivenPicked(rows, query, context, group, m, choices, choice);
      }
      JoinPicks(rows, query, context, group, m, front, last);
      PushesUnfold(rows, query, context, group, m);
      JoinMirrors(rows, PushesTo(rows[..m], query, context, group), RowPushes(rows[m], variants, group), front, last);
      picks := front + last;
    }
  }

  lemma {:induction false} GivenIsValid(rows: seq<Row>, query: Query, context: Context, group: Group, i: nat, choice: Choice)
    requires Gives(rows, query, context, group, i, choice)
    ensures i < |rows| && Valid(rows[i], query, context, query.groupBy, choice)
  {
    hide Valid, GroupIs;
  }

  // ---- their statistics ----

  lemma {:induction false} TallyIs(pushes: seq<Push>, picks: seq<Pick>, f: Push -> seq<Float>, part: Pick -> multiset<Float>)
    requires |pushes| == |picks| && forall k :: 0 <= k < |picks| ==> multiset(f(pushes[k])) == part(picks[k])
    ensures multiset(Extract(pushes, f)) == Tally(picks, part)
  {
    if pushes != [] {
      var n := |pushes| - 1;
      TallyIs(pushes[..n], picks[..n], f, part);
    }
  }

  lemma {:induction false} ScoresTally(arith: Arithmetic, scores: seq<Feedback>, key: string)
    ensures multiset(ScoresIn(arith, scores, key)) == ScoreTally(arith, scores, key)
  {
    if scores != [] {
      ScoresTally(arith, scores[..|scores| - 1], key);
    }
  }

  lemma {:induction false} ErrorsAre(rows: seq<Row>, pushes: seq<Push>, picks: seq<Pick>)
    requires Mirrors(rows, pushes, picks)
    ensures |Extract(pushes, ErrorOf())| == Failed(rows, picks)
  {
    if pushes != [] {
      var n := |pushes| - 1;
      ErrorsAre(rows, pushes[..n], picks[..n]);
      assert pushes[n] == Push(rows[picks[n].row], picks[n].scores);
    }
  }

  lemma {:induction false} KeysScored(rows: seq<Row>, pushes: seq<Push>, picks: seq<Pick>, key: string)
    requires Mirrors(rows, pushes, picks)
    ensures key in FeedbackKeys(pushes) <==> Scored(picks, key)
  {
    if key in FeedbackKeys(pushes) {
      var p, s :| p in pushes && s in p.feedback && s.key == key;
      var k :| 0 <= k < |pushes| && pushes[k] == p;
      var n :| 0 <= n < |p.feedback| && p.feedback[n] == s;
      assert picks[k].scores[n].key == key;
    }
    if Scored(picks, key) {
      var k, n :| 0 <= k < |picks| && 0 <= n < |picks[k].scores| && picks[k].scores[n].key == key;
      assert pushes[k] in pushes && picks[k].scores[n] in pushes[k].feedback;
    }
  }

  /** The values of the accumulators, as tallies. */
  lemma {:induction false} AccumulatedTally(arith: Arithmetic, rows: seq<Row>, pushes: seq<Push>, picks: seq<Pick>, k: nat, key: string)
    requires Mirrors(rows, pushes, picks)
    ensures var acc := Accumulated(arith, pushes);
      && acc.count == |picks| && acc.errors == Failed(rows, picks)
      && multiset(acc.latency) == Tally(picks, LatencyPart(arith, rows))
      && multiset(ValuesAt(acc.metrics, k)) == Tally(picks, MetricPart(arith, rows, k))
      && multiset(ValuesAt(acc.feedback, key)) == Tally(picks, ScorePart(arith, key))
      && (key in acc.feedback <==> Scored(picks, key))
  {
    AccumulatedHolds(arith, pushes, k, key);
    ErrorsAre(rows, pushes, picks);
    KeysScored(rows, pushes, picks, key);
    LatencyTally(arith, rows, pushes, picks);
    MetricTally(arith, rows, pushes, picks, k);
    KeyTally(arith, rows, pushes, picks, key);
    MirrorSize(rows, pushes, picks);
    hide *;
  }

  lemma {:induction false} MirrorSize(rows: seq<Row>, pushes: seq<Push>, picks: seq<Pick>)
    requires Mirrors(rows, pushes, picks)
    ensures |pushes| == |picks|
  {
  }

  lemma {:induction false} LatencyTally(arith: Arithmetic, rows: seq<Row>, pushes: seq<Push>, picks: seq<Pick>)
    requires Mirrors(rows, pushes, picks)
    ensures multiset(Extract(pushes, LatencyOf(arith))) == Tally(picks, LatencyPart(arith, rows))
  {
    hide Extract, Tally;
    TallyIs(pushes, picks, LatencyOf(arith), LatencyPart(arith, rows));
  }

  lemma {:induction false} MetricTally(arith: Arithmetic, rows: seq<Row>, pushes: seq<Push>, picks: seq<Pick>, k: nat)
    requires Mirrors(rows, pushes, picks)
    ensures multiset(Extract(pushes, MetricOf(arith, k))) == Tally(picks, MetricPart(arith, rows, k))
  {
    hide Extract, Tally;
    TallyIs(pushes, picks, MetricOf(arith, k), MetricPart(arith, rows, k));
  }

  lemma {:induction false} KeyTally(arith: Arithmetic, rows: seq<Row>, pushes: seq<Push>, picks: seq<Pick>, key: string)
    requires Mirrors(rows, pushes, picks)
    ensures multiset(Extract(pushes, ScoreOf(arith, key))) == Tally(picks, ScorePart(arith, key))
  {
    hide Extract, Tally, ScoresIn, ScoreTally;
    forall n | 0 <= n < |picks|
      ensures multiset(ScoreOf(arith, key)(pushes[n])) == ScorePart(arith, key)(picks[n])
    {
      ScoresTally(arith, picks[n].scores, key);
    }
    TallyIs(pushes, picks, ScoreOf(arith, key), ScorePart(arith, key));
  }

  lemma {:induction false} FeedbackMeans(arith: Arithmetic, rows: seq<Row>, pushes: seq<Push>, picks: seq<Pick>, key: string)
    requires Mirrors(rows, pushes, picks) && key in Accumulated(arith, pushes).feedback
    ensures var values := Accumulated(arith, pushes).feedback[key];
      && StatsOf(arith, Tally(picks, ScorePart(arith, key)), true, FeedbackSummary(arith, values).stats)
      && BandsOf(arith, Tally(picks, ScorePart(arith, key)), FeedbackSummary(arith, values).distribution)
  {
    AccumulatedTally(arith, rows, pushes, picks, 0, key);
    var values := Accumulated(arith, pushes).feedback[key];
    assert ValuesAt(Accumulated(arith, pushes).feedback, key) == values;
    SummaryMeans(arith, values, true);
    BandsMean(arith, values);
    hide Accumulated, Summary, Distribution, SortFloats, Tally, StatsOf, BandsOf;
  }

  lemma {:induction false} FinishedParts(arith: Arithmetic, acc: Accumulator)
    ensures var m := Finished(arith, acc);
      && m.count == acc.count && m.errors == acc.errors
      && m.errorRate == (if acc.count == 0 then arith.zero else arith.ratio(acc.errors, acc.count))
      && m.latency == Summary(arith, acc.latency, true)
      && (forall k: nat :: k in m.metrics <==> k < 8)
      && (forall k: nat :: k < 8 ==> m.metrics[k] == Summary(arith, ValuesAt(acc.metrics, k), k == 6))
      && (forall key :: key in m.feedback <==> key in acc.feedback)
      && (forall key :: key in m.feedback ==> m.feedback[key] == FeedbackSummary(arith, acc.feedback[key]))
  {
    hide Summary, FeedbackSummary;
  }

  /** The finished metrics of a group are those of its picks. */
  lemma {:induction false} FinishedMeans(arith: Arithmetic, rows: seq<Row>, pushes: seq<Push>, picks: seq<Pick>)
    requires Mirrors(rows, pushes, picks) && picks != []
    ensures MetricsOf(arith, rows, picks, Finished(arith, Accumulated(arith, pushes)))
  {
    var acc := Accumulated(arith, pushes);
    var m := Finished(arith, acc);
    FinishedParts(arith, acc);
    hide Accumulated, Finished, Summary, FeedbackSummary, Tally, StatsOf, BandsOf, Mirrors, Failed, Scored, ValuesAt;
    AccumulatedTally(arith, rows, pushes, picks, 0, "");
    SummaryMeans(arith, acc.latency, true);
    forall k: nat | k < 8
      ensures StatsOf(arith, Tally(picks, MetricPart(arith, rows, k)), k == 6, m.metrics[k])
    {
      AccumulatedTally(arith, rows, pushes, picks, k, "");
      SummaryMeans(arith, ValuesAt(acc.metrics, k), k == 6);
    }
    forall key
      ensures key in m.feedback <==> Scored(picks, key)
      ensures key in m.feedback ==>
        && StatsOf(arith, Tally(picks, ScorePart(arith, key)), true, m.feedback[key].stats)
        && BandsOf(arith, Tally(picks, ScorePart(arith, key)), m.feedback[key].distribution)
    {
      AccumulatedTally(arith, rows, pushes, picks, 0, key);
      if key in acc.feedback {
        FeedbackMeans(arith, rows, pushes, picks, key);
      }
    }
  }

  lemma {:induction false} GroupListed(rows: seq<Row>, query: Query, context: Context, group: Group, picks: seq<Pick>)
    requires PicksUpTo(rows, query, context, group, |rows|, picks)
    ensures group in Groups(rows, query, context) <==> picks != []
  {
    if group in Groups(rows, query, context) {
      var row :| row in rows && group in GroupsIn(Variants(row, query, context));
      var i :| 0 <= i < |rows| && rows[i] == row;
      var choices := VariantsShow(row, query, context);
      var variants := Variants(row, query, context);
      hide Variants, Valid, GroupIs, FeedbackIs, PickFits, DifferentPicks;
      var v :| v in variants && v.group == group;
      var j :| 0 <= j < |variants| && variants[j] == v;
      assert Shows(row, query, context, variants[j], choices[j]);
      assert Gives(rows, query, context, group, i, choices[j]);
      assert Picked(picks, i, choices[j]);
    }
    if picks != [] {
      var pick := picks[0];
      assert PickFits(rows, query, context, group, pick);
      PickListed(rows, query, context, group, pick);
    }
  }

  lemma {:induction false} PickListed(rows: seq<Row>, query: Query, context: Context, group: Group, pick: Pick)
    requires PickFits(rows, query, context, group, pick)
    ensures group in Groups(rows, query, context)
  {
    var row := rows[pick.row];
    var choices := VariantsShow(row, query, context);
    var variants := Variants(row, query, context);
    hide Variants, FeedbackIs;
    assert Valid(row, query, context, query.groupBy, pick.choice);
    var j :| 0 <= j < |choices| && choices[j] == pick.choice;
    assert Shows(row, query, context, variants[j], choices[j]);
    OneGroup(row, query, context, query.groupBy, pick.choice, variants[j].group, group);
    assert row in rows && group in GroupsIn(variants);
  }

  /** The specified output is what the rows mean. */
  lemma {:induction false} AggregatedMeans(arith: Arithmetic, rows: seq<Row>, query: Query, context: Context)
    ensures Means(arith, rows, query, context, Aggregated(arith, rows, query, context))
  {
    var output := Aggregated(arith, rows, query, context);
    hide MetricsOf, Groups, PushesTo, Accumulated, Finished, Variants, PickFits, Mirrors, Gives;
    forall group
      ensures GroupMeans(arith, rows, query, context, output, group)
    {
      var picks := PicksFor(rows, query, context, group, |rows|);
      assert rows[..|rows|] == rows;
      GroupListed(rows, query, context, group, picks);
      if picks != [] {
        FinishedMeans(arith, rows, PushesTo(rows, query, context, group), picks);
      }
      NowPicksOf(rows, query, context, group, picks);
      assert PicksOf(rows, query, context, group, picks);
    }
  }

  lemma {:induction false} NowPicksOf(rows: seq<Row>, query: Query, context: Context, group: Group, picks: seq<Pick>)
    requires PicksUpTo(rows, query, context, group, |rows|, picks)
    ensures PicksOf(rows, query, context, group, picks)
  {
    hide PickFits;
    forall i: nat, choice | Gives(rows, query, context, group, i, choice)
      ensures Picked(picks, i, choice)
    {
      GivenIsValid(rows, query, context, group, i, choice);
    }
  }
}
