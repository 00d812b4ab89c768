/**
 Answering a search from parts of the stored index only: the directory, the dictionaries
 of the selected groups and the slices of the selected terms (src/query/search.rs).
 */
module SearchLoading {
  import opened Wrappers
  import opened Bytes
  import opened SearchIndexData
  import opened SearchPredicates
  import opened SearchEvaluation
  import opened SearchSelection
  import opened IndexFormat
  import opened TermSlices
  import opened ObjectStore
  import RC = RangeCoalescing

  // ---- stored groups ----

  /** Directory entry `d` names, inside the object, the parts that decode to `g`. */
  ghost predicate Stored(codec: FstCodec, blob: ByteString, d: Directory, g: RowGroup) {
    && d.minTerm == g.minTerm && d.maxTerm == g.maxTerm && d.infoCount == |g.infos|
    && SliceExtent(blob, d.fst).Ok? && codec.read(SliceExtent(blob, d.fst).value) == Some(g.terms)
    && SliceExtent(blob, d.infos).Ok? && DecodeInfos(SliceExtent(blob, d.infos).value, d.infoCount) == Ok(g.infos)
    && SliceExtent(blob, d.postings) == Ok(g.postings)
    && SliceExtent(blob, d.positions) == Ok(g.positions)
  }

  ghost predicate AllStored(codec: FstCodec, blob: ByteString, ds: seq<Directory>, gs: seq<RowGroup>) {
    |ds| == |gs| && forall i :: 0 <= i < |ds| ==> Stored(codec, blob, ds[i], gs[i])
  }

  lemma {:induction false} InfosCount(bytes: ByteString, count: nat)
    ensures ReadInfos(bytes, count).Ok? ==> |ReadInfos(bytes, count).value.value| == count
    decreases count
  {
    hide ReadInfo;
    if count > 0 && ReadInfo(bytes).Ok? {
      InfosCount(ReadInfo(bytes).value.rest, count - 1);
    }
  }

  lemma {:induction false} DecodedAreStored(codec: FstCodec, blob: ByteString, ds: seq<Directory>)
    requires DecodeGroups(codec, blob, ds).Ok?
    ensures AllStored(codec, blob, ds, DecodeGroups(codec, blob, ds).value)
  {
    hide SliceExtent, ReadInfos;
    if ds != [] {
      var gs := DecodeGroups(codec, blob, ds).value;
      DecodedAreStored(codec, blob, ds[1..]);
      InfosCount(SliceExtent(blob, ds[0].infos).value, ds[0].infoCount);
      assert Stored(codec, blob, ds[0], gs[0]);
      assert forall i :: 1 <= i < |ds| ==> ds[i] == ds[1..][i - 1] && gs[i] == gs[1..][i - 1];
    }
  }

  // ---- ranges ----

  function RangeOf(e: Extent): Range {
    Range(e.offset, e.offset + e.len)
  }

  lemma {:induction false} RangeSlices(blob: ByteString, e: Extent)
    requires SliceExtent(blob, e).Ok?
    ensures RangeOf(e).start <= RangeOf(e).end <= |blob|
    ensures blob[RangeOf(e).start..RangeOf(e).end] == SliceExtent(blob, e).value
  {
  }

  /** `subrange`: a term's slice, or an error when it leaves its group. */
  function Subrange(base: Extent, offset: nat, len: nat): Result<Extent, LoadError> {
    if offset + len <= base.len then Ok(Extent(base.offset + offset, len)) else Err(RangeOutsideGroup)
  }

  /** A term's slice of the object is its slice of the group. */
  lemma {:induction false} SubrangeCuts(blob: ByteString, base: Extent, bytes: ByteString, offset: nat, len: nat)
    requires SliceExtent(blob, base) == Ok(bytes)
    ensures Subrange(base, offset, len).Ok? <==> Cut(bytes, offset, len).Some?
    ensures Subrange(base, offset, len).Ok? ==> SliceExtent(blob, Subrange(base, offset, len).value) == Ok(Cut(bytes, offset, len).value)
  {
    if offset + len <= base.len {
      RC.SliceOfSlice(blob, base.offset, base.offset + base.len, base.offset + offset, base.offset + offset + len);
    }
  }

  /** Every range lies in the object. */
  predicate Inside(ranges: seq<Range>, blob: ByteString) {
    forall i :: 0 <= i < |ranges| ==> ranges[i].start <= ranges[i].end <= |blob|
  }

  lemma {:induction false} ServedInside(blob: ByteString, ranges: seq<Range>)
    requires RC.InObject(ranges, blob)
    ensures Inside(ranges, blob) && ChunksOf(blob, ranges, RC.BytesOf(blob, ranges))
  {
  }

  lemma {:induction false} InsideInObject(blob: ByteString, ranges: seq<Range>)
    requires Inside(ranges, blob)
    ensures RC.InObject(ranges, blob)
  {
  }

  /**
   `read_ranges` of the index object.  What comes back is right, and ranges that lie in the
   object and are not empty do come back.
   */
  method Fetch(blob: ByteString, ranges: seq<Range>) returns (result: Result<seq<ByteString>, LoadError>)
    requires RC.WellFormed(ranges)
    ensures result.Ok? <==> RC.AllServed(blob, RC.CoalescedOf(ranges))
    ensures result.Ok? ==> Inside(ranges, blob) && ChunksOf(blob, ranges, result.value)
    ensures RC.NonEmpty(ranges) && Inside(ranges, blob) ==> result.Ok?
  {
    hide RC.AllServed, RC.CoalescedOf, RC.BytesOf, RC.NonEmpty, RC.WellFormed, RC.InObject, Inside, ChunksOf, ServedAll;
    var chunks := RC.ReadRanges(blob, ranges);
    if RC.NonEmpty(ranges) && Inside(ranges, blob) {
      InsideInObject(blob, ranges);
      RC.NonEmptyRead(ranges, blob);
    }
    if chunks.Err? {
      return Err(if chunks.error.Refused? then OutsideObject else SliceOutOfRange);
    }
    ServedInside(blob, ranges);
    return Ok(chunks.value);
  }

  // ---- dictionaries ----

  datatype DictionaryPlan = DictionaryPlan(group: nat, fst: nat, infos: nat)

  ghost predicate Planned(ds: seq<Directory>, ranges: seq<Range>, plan: DictionaryPlan) {
    && plan.group < |ds| && plan.fst < |ranges| && plan.infos < |ranges|
    && ranges[plan.fst] == RangeOf(ds[plan.group].fst) && ranges[plan.infos] == RangeOf(ds[plan.group].infos)
  }

  ghost predicate GroupsPlanned(ds: seq<Directory>, selected: set<nat>, upTo: nat, plans: seq<DictionaryPlan>) {
    && (forall i :: 0 <= i < upTo && i in selected ==> exists k :: 0 <= k < |plans| && plans[k].group == i)
    && (forall k :: 0 <= k < |plans| ==> plans[k].group < upTo && plans[k].group in selected)
    && (forall j, k :: 0 <= j < k < |plans| ==> plans[j].group < plans[k].group)
  }

  lemma {:induction false} MoreNonEmpty(ranges: seq<Range>, more: seq<Range>)
    requires RC.NonEmpty(ranges) && RC.NonEmpty(more)
    ensures RC.NonEmpty(ranges + more)
  {
  }

  /** The dictionary extents of the selected groups hold bytes. */
  ghost predicate ExtentsFilled(ds: seq<Directory>) {
    forall i :: 0 <= i < |ds| ==> ds[i].fst.len > 0 && ds[i].infos.len > 0
  }

  /** `plan_dictionary_ranges`. */
  method PlanDictionaries(ds: seq<Directory>, selected: set<nat>, ranges: seq<Range>, ghost blob: ByteString)
    returns (plans: seq<DictionaryPlan>, after: seq<Range>)
    requires Inside(ranges, blob) && ExtentsInside(blob, ds)
    ensures ranges <= after && Inside(after, blob)
    ensures forall k :: 0 <= k < |plans| ==> Planned(ds, after, plans[k])
    ensures GroupsPlanned(ds, selected, |ds|, plans)
    ensures ExtentsFilled(ds) && RC.NonEmpty(ranges) ==> RC.NonEmpty(after)
  {
    plans, after := [], ranges;
    hide RangeOf, GroupsPlanned, Planned, ExtentsFilled, RC.NonEmpty;
    assert GroupsPlanned(ds, selected, 0, []) by { NothingPlanned(ds, selected); }
    for i := 0 to |ds|
      invariant ranges <= after && Inside(after, blob)
      invariant forall k :: 0 <= k < |plans| ==> Planned(ds, after, plans[k])
      invariant GroupsPlanned(ds, selected, i, plans)
      invariant ExtentsFilled(ds) && RC.NonEmpty(ranges) ==> RC.NonEmpty(after)
    {
      if i in selected {
        var plan := DictionaryPlan(i, |after|, |after| + 1);
        var more := [RangeOf(ds[i].fst), RangeOf(ds[i].infos)];
        assert ExtentsOf(blob, ds[i]);
        if ExtentsFilled(ds) && RC.NonEmpty(ranges) {
          FilledRanges(ds, i);
          MoreNonEmpty(after, more);
        }
        forall k | 0 <= k < |plans|
          ensures Planned(ds, after + more, plans[k])
        {
          PlannedGrows(ds, after, more, plans[k]);
        }
        NewPlanned(ds, after, i);
        PlanOneMore(ds, selected, i, plans, plan);
        plans := plans + [plan];
        after := after + more;
      } else {
        PlanSkips(ds, selected, i, plans);
      }
    }
  }

  lemma {:induction false} FilledRanges(ds: seq<Directory>, i: nat)
    requires ExtentsFilled(ds) && i < |ds|
    ensures RC.NonEmpty([RangeOf(ds[i].fst), RangeOf(ds[i].infos)])
  {
  }

  lemma {:induction false} NothingPlanned(ds: seq<Directory>, selected: set<nat>)
    ensures GroupsPlanned(ds, selected, 0, [])
  {
  }

  lemma {:induction false} PlannedGrows(ds: seq<Directory>, ranges: seq<Range>, more: seq<Range>, plan: DictionaryPlan)
    requires Planned(ds, ranges, plan)
    ensures Planned(ds, ranges + more, plan)
  {
  }

  lemma {:induction false} NewPlanned(ds: seq<Directory>, ranges: seq<Range>, i: nat)
    requires i < |ds|
    ensures Planned(ds, ranges + [RangeOf(ds[i].fst), RangeOf(ds[i].infos)], DictionaryPlan(i, |ranges|, |ranges| + 1))
  {
  }

  lemma {:induction false} PlanOneMore(ds: seq<Directory>, selected: set<nat>, i: nat, plans: seq<DictionaryPlan>, plan: DictionaryPlan)
    requires GroupsPlanned(ds, selected, i, plans) && i in selected && plan.group == i
    ensures GroupsPlanned(ds, selected, i + 1, plans + [plan])
  {
    var after := plans + [plan];
    forall j | 0 <= j < i + 1 && j in selected
      ensures exists k :: 0 <= k < |after| && after[k].group == j
    {
      if j == i {
        assert after[|plans|].group == i;
      } else {
        var k :| 0 <= k < |plans| && plans[k].group == j;
        assert after[k].group == j;
      }
    }
  }

  lemma {:induction false} PlanSkips(ds: seq<Directory>, selected: set<nat>, i: nat, plans: seq<DictionaryPlan>)
    requires GroupsPlanned(ds, selected, i, plans) && i !in selected
    ensures GroupsPlanned(ds, selected, i + 1, plans)
  {
  }

  predicate ExtentsOf(blob: ByteString, d: Directory) {
    RangeOf(d.fst).end <= |blob| && RangeOf(d.infos).end <= |blob| && RangeOf(d.fst).start <= RangeOf(d.fst).end
    && RangeOf(d.infos).start <= RangeOf(d.infos).end
  }

  predicate ExtentsInside(blob: ByteString, ds: seq<Directory>) {
    forall i :: 0 <= i < |ds| ==> ExtentsOf(blob, ds[i])
  }

  lemma {:induction false} StoredInside(codec: FstCodec, blob: ByteString, ds: seq<Directory>, gs: seq<RowGroup>)
    requires AllStored(codec, blob, ds, gs)
    ensures ExtentsInside(blob, ds)
  {
    forall i | 0 <= i < |ds|
      ensures ExtentsOf(blob, ds[i])
    {
      assert Stored(codec, blob, ds[i], gs[i]);
      RangeSlices(blob, ds[i].fst);
      RangeSlices(blob, ds[i].infos);
    }
  }

  lemma {:induction false} SliceLength(bytes: ByteString, e: Extent)
    ensures SliceExtent(bytes, e).Ok? ==> |SliceExtent(bytes, e).value| == e.len
  {
  }

  /** Groups with terms, read by a codec that refuses nothing at all, have dictionaries and infos that take bytes. */
  lemma {:induction false} StoredFilled(codec: FstCodec, blob: ByteString, ds: seq<Directory>, gs: seq<RowGroup>)
    requires AllStored(codec, blob, ds, gs) && RefusesNothing(codec)
    requires forall i :: 0 <= i < |gs| ==> gs[i].infos != []
    ensures ExtentsFilled(ds)
  {
    hide ReadInfos;
    forall i | 0 <= i < |ds|
      ensures ds[i].fst.len > 0 && ds[i].infos.len > 0
    {
      assert Stored(codec, blob, ds[i], gs[i]);
      SliceLength(blob, ds[i].fst);
      SliceLength(blob, ds[i].infos);
    }
  }

  /** The dictionary of a stored group. */
  ghost predicate DictionaryFor(codec: FstCodec, gs: seq<RowGroup>, d: Dictionary) {
    && d.group < |gs| && d.terms == gs[d.group].terms && d.infos == gs[d.group].infos
    && codec.read(d.fst) == Some(d.terms)
  }

  ghost predicate DictionariesFor(codec: FstCodec, gs: seq<RowGroup>, selected: set<nat>, dicts: seq<Dictionary>) {
    && (forall k :: 0 <= k < |dicts| ==> DictionaryFor(codec, gs, dicts[k]))
    && (forall j, k :: 0 <= j < k < |dicts| ==> dicts[j].group < dicts[k].group)
    && (forall i :: 0 <= i < |gs| && i in selected ==> exists k :: 0 <= k < |dicts| && dicts[k].group == i)
  }

  ghost predicate ChunksOf(blob: ByteString, ranges: seq<Range>, chunks: seq<ByteString>) {
    |chunks| == |ranges| && forall i :: 0 <= i < |ranges| ==>
      ranges[i].start <= ranges[i].end <= |blob| && chunks[i] == blob[ranges[i].start..ranges[i].end]
  }

  /** The chunks of a plan are the stored group's dictionary. */
  lemma {:induction false} DictionaryRead(
    codec: FstCodec, chunks: seq<ByteString>, ds: seq<Directory>, plan: DictionaryPlan, blob: ByteString, ranges: seq<Range>, gs: seq<RowGroup>)
    requires AllStored(codec, blob, ds, gs) && ChunksOf(blob, ranges, chunks) && Planned(ds, ranges, plan)
    ensures plan.group < |ds| == |gs| && plan.fst < |chunks| && plan.infos < |chunks|
    ensures codec.read(chunks[plan.fst]) == Some(gs[plan.group].terms)
    ensures DecodeInfos(chunks[plan.infos], ds[plan.group].infoCount) == Ok(gs[plan.group].infos)
    ensures DictionaryFor(codec, gs, Dictionary(plan.group, chunks[plan.fst], gs[plan.group].terms, gs[plan.group].infos))
  {
    assert Stored(codec, blob, ds[plan.group], gs[plan.group]);
    RangeSlices(blob, ds[plan.group].fst);
    RangeSlices(blob, ds[plan.group].infos);
    hide SliceExtent, DecodeInfos;
  }

  lemma {:induction false} StoredAlike(codec: FstCodec, blob: ByteString, ds: seq<Directory>, gs: seq<RowGroup>)
    requires AllStored(codec, blob, ds, gs)
    ensures |ds| == |gs|
  {
  }

  /** `materialize_dictionaries`. */
  method MaterializeDictionaries(
    codec: FstCodec, chunks: seq<ByteString>, ds: seq<Directory>, plans: seq<DictionaryPlan>,
    ghost blob: ByteString, ghost ranges: seq<Range>, ghost gs: seq<RowGroup>, ghost selected: set<nat>)
    returns (result: Result<seq<Dictionary>, LoadError>)
    requires AllStored(codec, blob, ds, gs) && ChunksOf(blob, ranges, chunks)
    requires forall k :: 0 <= k < |plans| ==> Planned(ds, ranges, plans[k])
    requires GroupsPlanned(ds, selected, |ds|, plans)
    ensures result.Ok? && DictionariesFor(codec, gs, selected, result.value)
  {
    var dicts: seq<Dictionary> := [];
    NoneMaterialized(codec, gs, plans);
    hide *;
    for k := 0 to |plans|
      invariant Materialized(codec, gs, plans[..k], dicts)
    {
      var plan := plans[k];
      DictionaryRead(codec, chunks, ds, plan, blob, ranges, gs);
      var d := ds[plan.group];
      var fst := codec.read(chunks[plan.fst]);
      var infos := DecodeInfos(chunks[plan.infos], d.infoCount);
      if fst.None? || infos.Err? {
        return Err(BadDictionary);
      }
      var dict := Dictionary(plan.group, chunks[plan.fst], fst.value, infos.value);
      OneMoreMaterialized(codec, gs, plans, k, dicts, dict);
      dicts := dicts + [dict];
    }
    assert plans[..|plans|] == plans;
    result := Ok(dicts);
    StoredAlike(codec, blob, ds, gs);
    AllMaterialized(codec, ds, gs, selected, plans, dicts);
  }

  /** The dictionaries read for the plans, in their order. */
  ghost predicate Materialized(codec: FstCodec, gs: seq<RowGroup>, plans: seq<DictionaryPlan>, dicts: seq<Dictionary>) {
    |dicts| == |plans| && forall j :: 0 <= j < |dicts| ==> DictionaryFor(codec, gs, dicts[j]) && dicts[j].group == plans[j].group
  }

  lemma {:induction false} NoneMaterialized(codec: FstCodec, gs: seq<RowGroup>, plans: seq<DictionaryPlan>)
    ensures Materialized(codec, gs, plans[..0], [])
  {
  }

  lemma {:induction false} OneMoreMaterialized(
    codec: FstCodec, gs: seq<RowGroup>, plans: seq<DictionaryPlan>, k: nat, dicts: seq<Dictionary>, dict: Dictionary)
    requires k < |plans| && Materialized(codec, gs, plans[..k], dicts)
    requires DictionaryFor(codec, gs, dict) && dict.group == plans[k].group
    ensures Materialized(codec, gs, plans[..k + 1], dicts + [dict])
  {
    hide DictionaryFor;
  }

  lemma {:induction false} AllMaterialized(
    codec: FstCodec, ds: seq<Directory>, gs: seq<RowGroup>, selected: set<nat>, plans: seq<DictionaryPlan>, dicts: seq<Dictionary>)
    requires |ds| == |gs| && GroupsPlanned(ds, selected, |ds|, plans) && Materialized(codec, gs, plans, dicts)
    ensures DictionariesFor(codec, gs, selected, dicts)
  {
    hide DictionaryFor;
    forall i | 0 <= i < |gs| && i in selected
      ensures exists k :: 0 <= k < |dicts| && dicts[k].group == i
    {
      var k :| 0 <= k < |plans| && plans[k].group == i;
      assert dicts[k].group == i;
    }
  }

  // ---- term slices ----

  datatype GroupPlan = GroupPlan(dict: Dictionary, terms: seq<TermPlan>)

  /** A range of the object is a cut of a group's buffer. */
  ghost predicate RangeIs(blob: ByteString, r: Range, cut: Option<ByteString>) {
    r.start <= r.end <= |blob| && cut == Some(blob[r.start..r.end])
  }

  ghost predicate TermPlanned(g: RowGroup, blob: ByteString, ranges: seq<Range>, t: TermPlan) {
    && t.ordinal < |g.infos| && t.info == g.infos[t.ordinal]
    && t.postings < |ranges| && RangeIs(blob, ranges[t.postings], Cut(g.postings, t.info.postingsOffset, t.info.postingsLen))
    && (t.positions.Some? ==>
          && t.info.positionsLen > 0 && t.positions.value < |ranges|
          && RangeIs(blob, ranges[t.positions.value], Cut(g.positions, t.info.positionsOffset, t.info.positionsLen)))
  }

  /** The plan has the marked term, with its positions when they were asked for. */
  ghost predicate HasTerm(terms: seq<TermPlan>, o: nat, withPositions: bool) {
    exists k :: 0 <= k < |terms| && terms[k].ordinal == o
      && (withPositions ==> terms[k].positions.Some? || terms[k].info.positionsLen == 0)
  }

  ghost predicate MarksPlanned(dict: Dictionary, marks: map<nat, bool>, allowPositions: bool, upTo: nat, terms: seq<TermPlan>) {
    && (forall o :: o in marks && o < upTo && o < |dict.infos| ==> HasTerm(terms, o, allowPositions && marks[o]))
    && (forall k :: 0 <= k < |terms| ==> terms[k].ordinal < upTo)
    && InOrder(terms)
  }

  lemma {:induction false} PlanGrows(g: RowGroup, blob: ByteString, ranges: seq<Range>, more: seq<Range>, t: TermPlan)
    requires TermPlanned(g, blob, ranges, t)
    ensures TermPlanned(g, blob, ranges + more, t)
  {
    hide Cut;
  }

  lemma {:induction false} OneMoreMark(dict: Dictionary, marks: map<nat, bool>, allowPositions: bool, o: nat, terms: seq<TermPlan>, t: TermPlan)
    requires MarksPlanned(dict, marks, allowPositions, o, terms) && o in marks && t.ordinal == o
    requires allowPositions && marks[o] ==> t.positions.Some? || t.info.positionsLen == 0
    ensures MarksPlanned(dict, marks, allowPositions, o + 1, terms + [t])
  {
    var after := terms + [t];
    forall p | p in marks && p < o + 1 && p < |dict.infos|
      ensures HasTerm(after, p, allowPositions && marks[p])
    {
      if p == o {
        assert after[|terms|] == t;
      } else {
        assert HasTerm(terms, p, allowPositions && marks[p]);
        var k :| 0 <= k < |terms| && terms[k].ordinal == p && (allowPositions && marks[p] ==> terms[k].positions.Some? || terms[k].info.positionsLen == 0);
        assert after[k] == terms[k];
      }
    }
  }

  lemma {:induction false} SkippedMark(dict: Dictionary, marks: map<nat, bool>, allowPositions: bool, o: nat, terms: seq<TermPlan>)
    requires MarksPlanned(dict, marks, allowPositions, o, terms) && o !in marks
    ensures MarksPlanned(dict, marks, allowPositions, o + 1, terms)
  {
  }

  /** One group of `plan_term_data_ranges`, over the ordinals `materialize_term_slices` keeps. */
  method PlanGroupTerms(
    d: Directory, dict: Dictionary, marks: map<nat, bool>, allowPositions: bool, ranges: seq<Range>,
    ghost codec: FstCodec, ghost blob: ByteString, ghost g: RowGroup)
    returns (result: Result<seq<TermPlan>, LoadError>, after: seq<Range>)
    requires Stored(codec, blob, d, g) && dict.infos == g.infos
    requires Inside(ranges, blob)
    ensures ranges <= after && Inside(after, blob)
    ensures result.Ok? ==> MarksPlanned(dict, marks, allowPositions, |dict.infos|, result.value)
    ensures result.Ok? ==> forall k :: 0 <= k < |result.value| ==> TermPlanned(g, blob, after, result.value[k])
    ensures LaidOut(g) ==> result.Ok?
    ensures LaidOut(g) && RC.NonEmpty(ranges) ==> RC.NonEmpty(after)
  {
    var terms: seq<TermPlan> := [];
    after := ranges;
    hide SliceExtent, DecodeInfos, Cut, Subrange, LaidOut, MarksPlanned, TermPlanned, RC.NonEmpty, RangeOf;
    assert MarksPlanned(dict, marks, allowPositions, 0, terms) by { NoMarks(dict, marks, allowPositions); }
    for o := 0 to |dict.infos|
      invariant ranges <= after && Inside(after, blob)
      invariant MarksPlanned(dict, marks, allowPositions, o, terms)
      invariant forall k :: 0 <= k < |terms| ==> TermPlanned(g, blob, after, terms[k])
      invariant LaidOut(g) && RC.NonEmpty(ranges) ==> RC.NonEmpty(after)
    {
      if o in marks {
        var info := dict.infos[o];
        SubrangeCuts(blob, d.postings, g.postings, info.postingsOffset, info.postingsLen);
        SubrangeCuts(blob, d.positions, g.positions, info.positionsOffset, info.positionsLen);
        if LaidOut(g) {
          LaidOutCuts(g, o);
        }
        var postings := Subrange(d.postings, info.postingsOffset, info.postingsLen);
        if postings.Err? {
          return Err(postings.error), after;
        }
        var more := [RangeOf(postings.value)];
        var t := TermPlan(o, info, |after|, None);
        RangeSlices(blob, postings.value);
        if info.postingsLen > 0 {
          FilledRange(d.postings, info.postingsOffset, info.postingsLen);
        }
        if allowPositions && marks[o] && info.positionsLen > 0 {
          var positions := Subrange(d.positions, info.positionsOffset, info.positionsLen);
          if positions.Err? {
            return Err(positions.error), after;
          }
          RangeSlices(blob, positions.value);
          FilledRange(d.positions, info.positionsOffset, info.positionsLen);
          if LaidOut(g) {
            MoreNonEmpty(more, [RangeOf(positions.value)]);
          }
          more := more + [RangeOf(positions.value)];
          t := t.(positions := Some(|after| + 1));
        }
        if LaidOut(g) && RC.NonEmpty(ranges) {
          MoreNonEmpty(after, more);
        }
        NewTermPlanned(g, blob, after, more, t);
        forall k | 0 <= k < |terms|
          ensures TermPlanned(g, blob, after + more, terms[k])
        {
          PlanGrows(g, blob, after, more, terms[k]);
        }
        OneMoreMark(dict, marks, allowPositions, o, terms, t);
        terms := terms + [t];
        after := after + more;
      } else {
        SkippedMark(dict, marks, allowPositions, o, terms);
      }
    }
    result := Ok(terms);
  }

  lemma {:induction false} NoMarks(dict: Dictionary, marks: map<nat, bool>, allowPositions: bool)
    ensures MarksPlanned(dict, marks, allowPositions, 0, [])
  {
  }

  lemma {:induction false} LaidOutCuts(g: RowGroup, o: nat)
    requires LaidOut(g) && o < |g.infos|
    ensures Cut(g.postings, g.infos[o].postingsOffset, g.infos[o].postingsLen).Some?
    ensures Cut(g.positions, g.infos[o].positionsOffset, g.infos[o].positionsLen).Some?
    ensures g.infos[o].postingsLen > 0
  {
  }

  lemma {:induction false} FilledRange(base: Extent, offset: nat, len: nat)
    requires len > 0 && Subrange(base, offset, len).Ok?
    ensures RC.NonEmpty([RangeOf(Subrange(base, offset, len).value)])
  {
  }

  lemma {:induction false} NewTermPlanned(g: RowGroup, blob: ByteString, ranges: seq<Range>, more: seq<Range>, t: TermPlan)
    requires t.ordinal < |g.infos| && t.info == g.infos[t.ordinal] && t.postings == |ranges| && |more| > 0
    requires RangeIs(blob, more[0], Cut(g.postings, t.info.postingsOffset, t.info.postingsLen))
    requires t.positions.Some? ==> t.positions.value == |ranges| + 1 && |more| > 1 && t.info.positionsLen > 0
    requires t.positions.Some? ==> RangeIs(blob, more[1], Cut(g.positions, t.info.positionsOffset, t.info.positionsLen))
    ensures TermPlanned(g, blob, ranges + more, t)
  {
    hide Cut;
  }

  ghost predicate GroupPlanned(
    codec: FstCodec, gs: seq<RowGroup>, blob: ByteString, ranges: seq<Range>, selected: Selected, allowPositions: bool, p: GroupPlan)
  {
    && DictionaryFor(codec, gs, p.dict) && p.dict.group in selected
    && MarksPlanned(p.dict, selected[p.dict.group], allowPositions, |p.dict.infos|, p.terms)
    && forall k :: 0 <= k < |p.terms| ==> TermPlanned(gs[p.dict.group], blob, ranges, p.terms[k])
  }

  /** A dictionary with a marked, stored term has a plan. */
  ghost predicate PlansCover(dict: Dictionary, selected: Selected, plans: seq<GroupPlan>) {
    (exists o :: dict.group in selected && o in selected[dict.group] && o < |dict.infos|) ==>
      exists k :: 0 <= k < |plans| && plans[k].dict == dict
  }

  lemma {:induction false} GroupPlanGrows(
    codec: FstCodec, gs: seq<RowGroup>, blob: ByteString, ranges: seq<Range>, more: seq<Range>, selected: Selected, allowPositions: bool, p: GroupPlan)
    requires GroupPlanned(codec, gs, blob, ranges, selected, allowPositions, p) && ranges <= more
    ensures GroupPlanned(codec, gs, blob, more, selected, allowPositions, p)
  {
    hide TermPlanned, MarksPlanned;
    forall k | 0 <= k < |p.terms|
      ensures TermPlanned(gs[p.dict.group], blob, more, p.terms[k])
    {
      PlanGrows(gs[p.dict.group], blob, ranges, more[|ranges|..], p.terms[k]);
      assert more == ranges + more[|ranges|..];
    }
  }

  lemma {:induction false} CoverGrows(dict: Dictionary, selected: Selected, plans: seq<GroupPlan>, more: seq<GroupPlan>)
    requires PlansCover(dict, selected, plans)
    ensures PlansCover(dict, selected, plans + more)
  {
    if k :| 0 <= k < |plans| && plans[k].dict == dict {
      assert (plans + more)[k].dict == dict;
    }
  }

  lemma {:induction false} EmptyPlanCovers(dict: Dictionary, selected: Selected, allowPositions: bool, plans: seq<GroupPlan>)
    requires dict.group in selected ==> MarksPlanned(dict, selected[dict.group], allowPositions, |dict.infos|, [])
    ensures PlansCover(dict, selected, plans)
  {
    if dict.group in selected {
      forall o | o in selected[dict.group]
        ensures !(o < |dict.infos|)
      {
        assert !HasTerm([], o, allowPositions && selected[dict.group][o]);
      }
    }
  }

  /** `plan_term_data_ranges` over the selected groups. */
  method PlanTerms(
    ds: seq<Directory>, dicts: seq<Dictionary>, selected: Selected, allowPositions: bool, ranges: seq<Range>,
    ghost codec: FstCodec, ghost blob: ByteString, ghost gs: seq<RowGroup>)
    returns (result: Result<seq<GroupPlan>, LoadError>, after: seq<Range>)
    requires AllStored(codec, blob, ds, gs) && Inside(ranges, blob)
    requires forall k :: 0 <= k < |dicts| ==> DictionaryFor(codec, gs, dicts[k])
    ensures ranges <= after && Inside(after, blob)
    ensures result.Ok? ==> forall k :: 0 <= k < |result.value| ==> GroupPlanned(codec, gs, blob, after, selected, allowPositions, result.value[k])
    ensures result.Ok? ==> forall k :: 0 <= k < |result.value| ==> result.value[k].dict in dicts
    ensures result.Ok? ==> forall k :: 0 <= k < |dicts| ==> PlansCover(dicts[k], selected, result.value)
    ensures (forall i :: 0 <= i < |gs| ==> LaidOut(gs[i])) ==> result.Ok?
    ensures (forall i :: 0 <= i < |gs| ==> LaidOut(gs[i])) && RC.NonEmpty(ranges) ==> RC.NonEmpty(after)
  {
    var plans: seq<GroupPlan> := [];
    after := ranges;
    hide Stored, LaidOut, MarksPlanned, TermPlanned, PlansCover, Inside, RC.NonEmpty;
    for i := 0 to |dicts|
      invariant ranges <= after && Inside(after, blob)
      invariant forall k :: 0 <= k < |plans| ==> GroupPlanned(codec, gs, blob, after, selected, allowPositions, plans[k])
      invariant forall k :: 0 <= k < |plans| ==> plans[k].dict in dicts
      invariant forall k :: 0 <= k < i ==> PlansCover(dicts[k], selected, plans)
      invariant (forall i :: 0 <= i < |gs| ==> LaidOut(gs[i])) && RC.NonEmpty(ranges) ==> RC.NonEmpty(after)
    {
      var dict := dicts[i];
      assert DictionaryFor(codec, gs, dict);
      if dict.group in selected {
        assert Stored(codec, blob, ds[dict.group], gs[dict.group]);
        ghost var before, had := after, plans;
        var terms;
        terms, after := PlanGroupTerms(ds[dict.group], dict, selected[dict.group], allowPositions, after, codec, blob, gs[dict.group]);
        if terms.Err? {
          return Err(terms.error), after;
        }
        forall k | 0 <= k < |plans|
          ensures GroupPlanned(codec, gs, blob, after, selected, allowPositions, plans[k])
        {
          GroupPlanGrows(codec, gs, blob, before, after, selected, allowPositions, plans[k]);
        }
        if terms.value != [] {
          ghost var added := [GroupPlan(dict, terms.value)];
          forall k | 0 <= k < i
            ensures PlansCover(dicts[k], selected, plans + added)
          {
            CoverGrows(dicts[k], selected, plans, added);
          }
          plans := plans + [GroupPlan(dict, terms.value)];
          assert PlansCover(dict, selected, plans) by { NewPlanCovers(dict, selected, had, terms.value); }
        } else {
          EmptyPlanCovers(dict, selected, allowPositions, plans);
        }
      } else {
        EmptyPlanCovers(dict, selected, allowPositions, plans);
      }
    }
    result := Ok(plans);
  }

  lemma {:induction false} NewPlanCovers(dict: Dictionary, selected: Selected, plans: seq<GroupPlan>, terms: seq<TermPlan>)
    ensures PlansCover(dict, selected, plans + [GroupPlan(dict, terms)])
  {
    assert (plans + [GroupPlan(dict, terms)])[|plans|].dict == dict;
  }

  // ---- rebuilding ----

  /** `h` is `g` with the planned terms rebased. */
  ghost predicate Rebuilt(g: RowGroup, terms: seq<TermPlan>, h: RowGroup) {
    && h.minTerm == g.minTerm && h.maxTerm == g.maxTerm && h.terms == g.terms && |h.infos| == |g.infos|
    && AllRebased(g, terms, |terms|, h.infos, h.postings, h.positions) && DefaultElsewhere(terms, h.infos)
  }

  ghost predicate RebuiltAt(gs: seq<RowGroup>, p: GroupPlan, h: RowGroup) {
    p.dict.group < |gs| && Rebuilt(gs[p.dict.group], p.terms, h)
  }

  lemma {:induction false} PlannedFetched(g: RowGroup, blob: ByteString, ranges: seq<Range>, chunks: seq<ByteString>, t: TermPlan)
    requires TermPlanned(g, blob, ranges, t) && ChunksOf(blob, ranges, chunks)
    ensures Fetched(g, chunks, t)
  {
    hide Cut;
  }

  /** `materialize_term_data_groups` and `decode_search_index_chunks`. */
  method MaterializeGroups(
    codec: FstCodec, ds: seq<Directory>, chunks: seq<ByteString>, plans: seq<GroupPlan>,
    ghost blob: ByteString, ghost ranges: seq<Range>, ghost gs: seq<RowGroup>, ghost selected: Selected, ghost allowPositions: bool)
    returns (result: Result<seq<RowGroup>, LoadError>)
    requires AllStored(codec, blob, ds, gs) && ChunksOf(blob, ranges, chunks)
    requires forall k :: 0 <= k < |plans| ==> GroupPlanned(codec, gs, blob, ranges, selected, allowPositions, plans[k])
    ensures result.Ok? ==> |result.value| == |plans|
    ensures result.Ok? ==> forall k :: 0 <= k < |plans| ==> RebuiltAt(gs, plans[k], result.value[k])
    ensures (forall i :: 0 <= i < |gs| ==> LaidOut(gs[i])) ==> result.Ok?
  {
    var hs: seq<RowGroup> := [];
    hide LaidOut, TermPlanned, AllRebased, Fetched, DecodeInfos, InfosBytes, SliceExtent, ChunksOf;
    for k := 0 to |plans|
      invariant |hs| == k
      invariant forall j :: 0 <= j < k ==> RebuiltAt(gs, plans[j], hs[j])
    {
      var p := plans[k];
      assert GroupPlanned(codec, gs, blob, ranges, selected, allowPositions, p);
      ghost var g := gs[p.dict.group];
      assert Stored(codec, blob, ds[p.dict.group], g);
      forall j | 0 <= j < |p.terms|
        ensures Fetched(g, chunks, p.terms[j])
      {
        PlannedFetched(g, blob, ranges, chunks, p.terms[j]);
      }
      var parts := MaterializeTerms(g, chunks, |p.dict.infos|, p.terms);
      if parts.Err? {
        return Err(parts.error);
      }
      InfosRoundTrip(parts.value.0);
      var h := LoadedGroup(codec, ds[p.dict.group], p.dict.fst, InfosBytes(parts.value.0), parts.value.1, parts.value.2);
      assert h == Ok(RowGroup(g.minTerm, g.maxTerm, g.terms, parts.value.0, parts.value.1, parts.value.2));
      hs := hs + [h.value];
    }
    result := Ok(hs);
  }

  // ---- the rebuilt groups are a copy ----

  lemma {:induction false} RebuiltCopies(
    g: RowGroup, p: GroupPlan, marks: map<nat, bool>, allowPositions: bool, h: RowGroup, wanted: ByteString -> bool, positioned: ByteString -> bool)
    requires p.dict.terms == g.terms && p.dict.infos == g.infos
    requires MarksPlanned(p.dict, marks, allowPositions, |g.infos|, p.terms) && Rebuilt(g, p.terms, h)
    requires forall k :: 0 <= k < |p.terms| ==> p.terms[k].ordinal < |g.infos| && p.terms[k].info == g.infos[p.terms[k].ordinal]
    requires forall o: nat :: o < |g.terms| && wanted(g.terms[o]) ==> o in marks
    requires forall o: nat :: o < |g.terms| && wanted(g.terms[o]) && positioned(g.terms[o]) ==> allowPositions && marks[o]
    ensures GroupCopies(g, h, wanted, positioned)
  {
    hide TermAt, Rebased;
    forall o: nat | o < |g.terms| && wanted(g.terms[o])
      ensures TermAt(h, o, false) == TermAt(g, o, false)
      ensures positioned(g.terms[o]) ==> TermAt(h, o, true) == TermAt(g, o, true)
    {
      if o < |g.infos| {
        assert HasTerm(p.terms, o, allowPositions && marks[o]);
        var k :| 0 <= k < |p.terms| && p.terms[k].ordinal == o
          && (allowPositions && marks[o] ==> p.terms[k].positions.Some? || p.terms[k].info.positionsLen == 0);
        RebasedDecodesSame(g, h, p.terms[k]);
      } else {
        NotStored(g, o);
        NotStored(h, o);
      }
    }
  }

  lemma {:induction false} NotStored(g: RowGroup, o: nat)
    requires o >= |g.infos|
    ensures TermAt(g, o, false) == None && TermAt(g, o, true) == None
  {
  }

  function PlanIds(plans: seq<GroupPlan>): seq<nat> {
    seq(|plans|, k requires 0 <= k < |plans| => plans[k].dict.group)
  }

  /** The groups rebuilt from the plans copy the stored groups for everything the selection wanted. */
  lemma {:induction false} PlansCopy(
    codec: FstCodec, gs: seq<RowGroup>, groups: set<nat>, dicts: seq<Dictionary>, selected: Selected, allowPositions: bool,
    blob: ByteString, ranges: seq<Range>, plans: seq<GroupPlan>, hs: seq<RowGroup>,
    kept: RowGroup -> bool, wanted: ByteString -> bool, positioned: ByteString -> bool)
    requires DictionariesFor(codec, gs, groups, dicts) && MarksExactly(dicts, selected, wanted, positioned)
    requires forall i :: 0 <= i < |gs| && kept(gs[i]) ==> i in groups
    requires forall k :: 0 <= k < |plans| ==> plans[k].dict in dicts && GroupPlanned(codec, gs, blob, ranges, selected, allowPositions, plans[k])
    requires forall k :: 0 <= k < |dicts| ==> PlansCover(dicts[k], selected, plans)
    requires |hs| == |plans| && forall k :: 0 <= k < |plans| ==> RebuiltAt(gs, plans[k], hs[k])
    requires allowPositions || forall term :: !positioned(term)
    ensures Copies(gs, hs, PlanIds(plans), kept, wanted, positioned)
  {
    hide TermPlanned, Rebuilt, GroupCopies, MarksPlanned, PlansCover;
    var ids := PlanIds(plans);
    forall k | 0 <= k < |plans|
      ensures ids[k] < |gs| && GroupCopies(gs[ids[k]], hs[k], wanted, positioned)
    {
      var p := plans[k];
      assert GroupPlanned(codec, gs, blob, ranges, selected, allowPositions, p) && RebuiltAt(gs, p, hs[k]);
      PlannedOrdinals(codec, gs, blob, ranges, selected, allowPositions, p);
      RebuiltCopies(gs[p.dict.group], p, selected[p.dict.group], allowPositions, hs[k], wanted, positioned);
    }
    forall i | 0 <= i < |gs| && kept(gs[i]) && HasWanted(gs[i], wanted)
      ensures i in ids
    {
      var o: nat :| o < |gs[i].terms| && o < |gs[i].infos| && wanted(gs[i].terms[o]);
      var j :| 0 <= j < |dicts| && dicts[j].group == i;
      assert DictionaryFor(codec, gs, dicts[j]);
      assert PlansCover(dicts[j], selected, plans);
      var k := CoveredBy(dicts[j], selected, plans, o);
      assert ids[k] == i;
    }
  }

  lemma {:induction false} PlannedOrdinals(
    codec: FstCodec, gs: seq<RowGroup>, blob: ByteString, ranges: seq<Range>, selected: Selected, allowPositions: bool, p: GroupPlan)
    requires GroupPlanned(codec, gs, blob, ranges, selected, allowPositions, p)
    ensures forall k :: 0 <= k < |p.terms| ==>
      p.terms[k].ordinal < |gs[p.dict.group].infos| && p.terms[k].info == gs[p.dict.group].infos[p.terms[k].ordinal]
  {
    forall k | 0 <= k < |p.terms|
      ensures p.terms[k].ordinal < |gs[p.dict.group].infos| && p.terms[k].info == gs[p.dict.group].infos[p.terms[k].ordinal]
    {
      assert TermPlanned(gs[p.dict.group], blob, ranges, p.terms[k]);
    }
  }

  lemma {:induction false} CoveredBy(dict: Dictionary, selected: Selected, plans: seq<GroupPlan>, o: nat) returns (k: nat)
    requires PlansCover(dict, selected, plans) && dict.group in selected && o in selected[dict.group] && o < |dict.infos|
    ensures k < |plans| && plans[k].dict == dict
  {
    k :| 0 <= k < |plans| && plans[k].dict == dict;
  }

  // ---- the whole search ----

  /** `load_search_index_directory`: it succeeds exactly when the object's directory decodes, and with that directory. */
  method LoadDirectory(blob: ByteString) returns (result: Result<IndexDirectory, LoadError>)
    ensures result.Ok? <==> DecodeIndexDirectory(blob).Ok?
    ensures result.Ok? ==> result.value == DecodeIndexDirectory(blob).value
  {
    hide DecodeHeader, DecodeDirectory;
    if DecodeHeader(blob).Ok? {
      HeaderComplete(blob);
    }
    if |blob| >= HEADER_LEN {
      HeaderFromFront(blob);
    }
    var front := Fetch(blob, [Range(0, HEADER_LEN)]);
    if front.Err? {
      return Err(front.error);
    }
    assert front.value[0] == blob[..HEADER_LEN];
    var header := DecodeHeader(front.value[0]);
    if header.Err? {
      return Err(BadDictionary);
    }
    var end := HEADER_LEN + header.value.directoryLen;
    var bytes: ByteString := [];
    if header.value.directoryLen > 0 {
      var chunk := Fetch(blob, [Range(HEADER_LEN, end)]);
      if chunk.Err? {
        return Err(chunk.error);
      }
      bytes := chunk.value[0];
    }
    assert end <= |blob| ==> bytes == blob[HEADER_LEN..end];
    var directory := DecodeDirectory(header.value, bytes);
    if directory.Err? {
      return Err(BadDictionary);
    }
    return Ok(directory.value);
  }

  /** `load_selected_dictionaries`. */
  method LoadDictionaries(
    codec: FstCodec, blob: ByteString, directory: IndexDirectory, keys: set<nat>, values: set<nat>, ghost index: SearchIndex)
    returns (result: Result<(seq<Dictionary>, seq<Dictionary>), LoadError>)
    requires |blob| <= RC.U64_MAX
    requires AllStored(codec, blob, directory.keyGroups, index.keyGroups) && AllStored(codec, blob, directory.valueGroups, index.valueGroups)
    ensures result.Ok? ==>
      DictionariesFor(codec, index.keyGroups, keys, result.value.0) && DictionariesFor(codec, index.valueGroups, values, result.value.1)
    ensures IndexLaidOut(index) && RefusesNothing(codec) ==> result.Ok?
  {
    if IndexLaidOut(index) && RefusesNothing(codec) {
      LaidOutHasInfos(index);
      StoredFilled(codec, blob, directory.keyGroups, index.keyGroups);
      StoredFilled(codec, blob, directory.valueGroups, index.valueGroups);
    }
    StoredInside(codec, blob, directory.keyGroups, index.keyGroups);
    StoredInside(codec, blob, directory.valueGroups, index.valueGroups);
    assert RC.NonEmpty([]);
    hide AllStored, ExtentsInside, GroupsPlanned, Planned, DictionariesFor, IndexLaidOut, RefusesNothing, ExtentsFilled, RC.NonEmpty, RC.WellFormed, RC.AllServed, RC.CoalescedOf;
    var keyPlans, first := PlanDictionaries(directory.keyGroups, keys, [], blob);
    var valuePlans, ranges := PlanDictionaries(directory.valueGroups, values, first, blob);
    forall k | 0 <= k < |keyPlans|
      ensures Planned(directory.keyGroups, ranges, keyPlans[k])
    {
      PlannedGrows(directory.keyGroups, first, ranges[|first|..], keyPlans[k]);
      assert first + ranges[|first|..] == ranges;
    }
    InsideWellFormed(blob, ranges);
    var chunks := Fetch(blob, ranges);
    if chunks.Err? {
      return Err(chunks.error);
    }
    var a := MaterializeDictionaries(codec, chunks.value, directory.keyGroups, keyPlans, blob, ranges, index.keyGroups, keys);
    var b := MaterializeDictionaries(codec, chunks.value, directory.valueGroups, valuePlans, blob, ranges, index.valueGroups, values);
    result := Ok((a.value, b.value));
  }

  lemma {:induction false} InsideWellFormed(blob: ByteString, ranges: seq<Range>)
    requires Inside(ranges, blob) && |blob| <= RC.U64_MAX
    ensures RC.WellFormed(ranges)
  {
  }

  lemma {:induction false} LaidOutHasInfos(index: SearchIndex)
    requires IndexLaidOut(index)
    ensures forall i :: 0 <= i < |index.keyGroups| ==> index.keyGroups[i].infos != []
    ensures forall i :: 0 <= i < |index.valueGroups| ==> index.valueGroups[i].infos != []
  {
  }

  ghost predicate IndexLaidOut(index: SearchIndex) {
    && (forall i :: 0 <= i < |index.keyGroups| ==> LaidOut(index.keyGroups[i]))
    && (forall i :: 0 <= i < |index.valueGroups| ==> LaidOut(index.valueGroups[i]))
  }

  /** `load_term_slices` and `decode_search_index_chunks`: the cut-down index. */
  method LoadTermSlices(
    codec: FstCodec, blob: ByteString, directory: IndexDirectory, keyDicts: seq<Dictionary>, valueDicts: seq<Dictionary>,
    keySelected: Selected, valueSelected: Selected,
    ghost index: SearchIndex, ghost keys: set<nat>, ghost values: set<nat>, ghost lookups: set<Lookup>, ghost patterns: set<ByteString>)
    returns (result: Result<SearchIndex, LoadError>, ghost keyIds: seq<nat>, ghost valueIds: seq<nat>)
    requires |blob| <= RC.U64_MAX && directory.rowCount == index.rowCount
    requires AllStored(codec, blob, directory.keyGroups, index.keyGroups) && AllStored(codec, blob, directory.valueGroups, index.valueGroups)
    requires DictionariesFor(codec, index.keyGroups, keys, keyDicts) && DictionariesFor(codec, index.valueGroups, values, valueDicts)
    requires MarksExactly(keyDicts, keySelected, term => KeyTermWanted(patterns, term), term => false)
    requires MarksExactly(valueDicts, valueSelected, term => ValueTermWanted(lookups, term), term => PositionsWanted(lookups, term))
    requires forall i :: 0 <= i < |index.keyGroups| && KeyGroupWanted(patterns, index.keyGroups[i].minTerm, index.keyGroups[i].maxTerm) ==> i in keys
    requires forall i :: 0 <= i < |index.valueGroups| && ValueGroupWanted(lookups, index.valueGroups[i].minTerm, index.valueGroups[i].maxTerm) ==> i in values
    ensures result.Ok? ==> IndexCopies(index, result.value, keyIds, valueIds, lookups, patterns)
    ensures IndexLaidOut(index) ==> result.Ok?
  {
    keyIds, valueIds := [], [];
    hide AllStored, LaidOut, KeyTermWanted, ValueTermWanted, PositionsWanted, KeyGroupWanted, ValueGroupWanted, MarksExactly, GroupPlanned, PlansCover, RebuiltAt, Copies, TermPlanned;
    assert forall k :: 0 <= k < |keyDicts| ==> DictionaryFor(codec, index.keyGroups, keyDicts[k]);
    assert forall k :: 0 <= k < |valueDicts| ==> DictionaryFor(codec, index.valueGroups, valueDicts[k]);
    assert RC.NonEmpty([]);
    hide DictionariesFor, DictionaryFor, RC.NonEmpty, RC.WellFormed, RC.AllServed, RC.CoalescedOf;
    var keyPlans, first := PlanTerms(directory.keyGroups, keyDicts, keySelected, false, [], codec, blob, index.keyGroups);
    if keyPlans.Err? {
      return Err(keyPlans.error), [], [];
    }
    var valuePlans, ranges := PlanTerms(directory.valueGroups, valueDicts, valueSelected, true, first, codec, blob, index.valueGroups);
    if valuePlans.Err? {
      return Err(valuePlans.error), [], [];
    }
    forall k | 0 <= k < |keyPlans.value|
      ensures GroupPlanned(codec, index.keyGroups, blob, ranges, keySelected, false, keyPlans.value[k])
    {
      GroupPlanGrows(codec, index.keyGroups, blob, first, ranges, keySelected, false, keyPlans.value[k]);
    }
    InsideWellFormed(blob, ranges);
    var chunks := Fetch(blob, ranges);
    if chunks.Err? {
      return Err(chunks.error), [], [];
    }
    var a := MaterializeGroups(codec, directory.keyGroups, chunks.value, keyPlans.value, blob, ranges, index.keyGroups, keySelected, false);
    if a.Err? {
      return Err(a.error), [], [];
    }
    var b := MaterializeGroups(codec, directory.valueGroups, chunks.value, valuePlans.value, blob, ranges, index.valueGroups, valueSelected, true);
    if b.Err? {
      return Err(b.error), [], [];
    }
    keyIds, valueIds := PlanIds(keyPlans.value), PlanIds(valuePlans.value);
    PlansCopy(codec, index.keyGroups, keys, keyDicts, keySelected, false, blob, ranges, keyPlans.value, a.value,
              (g: RowGroup) => KeyGroupWanted(patterns, g.minTerm, g.maxTerm), term => KeyTermWanted(patterns, term), term => false);
    PlansCopy(codec, index.valueGroups, values, valueDicts, valueSelected, true, blob, ranges, valuePlans.value, b.value,
              (g: RowGroup) => ValueGroupWanted(lookups, g.minTerm, g.maxTerm), term => ValueTermWanted(lookups, term), term => PositionsWanted(lookups, term));
    result := Ok(SearchIndex(directory.rowCount, a.value, b.value));
  }

  /** Whatever decodes as a whole is stored as its directory says. */
  lemma {:induction false} DecodedIndexStored(codec: FstCodec, blob: ByteString, index: SearchIndex)
    requires Decode(codec, blob) == Ok(index)
    ensures DecodeIndexDirectory(blob).Ok? && DecodeIndexDirectory(blob).value.rowCount == index.rowCount
    ensures AllStored(codec, blob, DecodeIndexDirectory(blob).value.keyGroups, index.keyGroups)
    ensures AllStored(codec, blob, DecodeIndexDirectory(blob).value.valueGroups, index.valueGroups)
  {
    hide DecodeIndexDirectory, DecodeGroups, AllStored;
    var directory := DecodeIndexDirectory(blob).value;
    DecodedAreStored(codec, blob, directory.keyGroups);
    DecodedAreStored(codec, blob, directory.valueGroups);
  }

  lemma {:induction false} SelectedGroupsSuffice(codec: FstCodec, blob: ByteString, directory: IndexDirectory, index: SearchIndex, lookups: set<Lookup>, patterns: set<ByteString>)
    requires AllStored(codec, blob, directory.keyGroups, index.keyGroups) && AllStored(codec, blob, directory.valueGroups, index.valueGroups)
    ensures forall i :: 0 <= i < |index.keyGroups| && KeyGroupWanted(patterns, index.keyGroups[i].minTerm, index.keyGroups[i].maxTerm) ==>
      i in KeyGroupsHit(directory.keyGroups, patterns)
    ensures forall i :: 0 <= i < |index.valueGroups| && ValueGroupWanted(lookups, index.valueGroups[i].minTerm, index.valueGroups[i].maxTerm) ==>
      i in ValueGroupsHit(directory.valueGroups, lookups)
  {
    hide KeyGroupWanted, ValueGroupWanted, KeyGroupsHit, ValueGroupsHit;
    forall i | 0 <= i < |index.keyGroups| && KeyGroupWanted(patterns, index.keyGroups[i].minTerm, index.keyGroups[i].maxTerm)
      ensures i in KeyGroupsHit(directory.keyGroups, patterns)
    {
      assert Stored(codec, blob, directory.keyGroups[i], index.keyGroups[i]);
      KeyGroupsHitIff(directory.keyGroups, patterns, i);
    }
    forall i | 0 <= i < |index.valueGroups| && ValueGroupWanted(lookups, index.valueGroups[i].minTerm, index.valueGroups[i].maxTerm)
      ensures i in ValueGroupsHit(directory.valueGroups, lookups)
    {
      assert Stored(codec, blob, directory.valueGroups[i], index.valueGroups[i]);
      ValueGroupsHitIff(directory.valueGroups, lookups, i);
    }
  }

  ghost predicate GroupsSuffice(index: SearchIndex, keys: set<nat>, values: set<nat>, p: SearchPredicate) {
    && (forall i :: 0 <= i < |index.keyGroups| && KeyGroupWanted(Patterns(p), index.keyGroups[i].minTerm, index.keyGroups[i].maxTerm) ==> i in keys)
    && (forall i :: 0 <= i < |index.valueGroups| && ValueGroupWanted(Lookups(p), index.valueGroups[i].minTerm, index.valueGroups[i].maxTerm) ==> i in values)
  }

  lemma {:induction false} SufficientGroups(index: SearchIndex, keys: set<nat>, values: set<nat>, p: SearchPredicate)
    requires GroupsSuffice(index, keys, values, p)
    ensures forall i :: 0 <= i < |index.keyGroups| && KeyGroupWanted(Patterns(p), index.keyGroups[i].minTerm, index.keyGroups[i].maxTerm) ==> i in keys
    ensures forall i :: 0 <= i < |index.valueGroups| && ValueGroupWanted(Lookups(p), index.valueGroups[i].minTerm, index.valueGroups[i].maxTerm) ==> i in values
  {
    hide KeyGroupWanted, ValueGroupWanted, Patterns, Lookups;
  }

  lemma {:induction false} HitsSuffice(codec: FstCodec, blob: ByteString, directory: IndexDirectory, index: SearchIndex, p: SearchPredicate)
    requires AllStored(codec, blob, directory.keyGroups, index.keyGroups) && AllStored(codec, blob, directory.valueGroups, index.valueGroups)
    ensures GroupsSuffice(index, {} + KeyGroupsHit(directory.keyGroups, Patterns(p)), {} + ValueGroupsHit(directory.valueGroups, Lookups(p)), p)
  {
    SelectedGroupsSuffice(codec, blob, directory, index, Lookups(p), Patterns(p));
    hide KeyGroupWanted, ValueGroupWanted, Patterns, Lookups, KeyGroupsHit, ValueGroupsHit, AllStored;
  }

  /** `load_selected_chunks`: dictionaries of the selected groups, then the selected terms. */
  method LoadSelected(
    codec: FstCodec, blob: ByteString, directory: IndexDirectory, keys: set<nat>, values: set<nat>, p: SearchPredicate, ghost index: SearchIndex)
    returns (partial: Result<SearchIndex, LoadError>, ghost keyIds: seq<nat>, ghost valueIds: seq<nat>)
    requires |blob| <= RC.U64_MAX && directory.rowCount == index.rowCount
    requires AllStored(codec, blob, directory.keyGroups, index.keyGroups) && AllStored(codec, blob, directory.valueGroups, index.valueGroups)
    requires GroupsSuffice(index, keys, values, p)
    ensures partial.Ok? ==> IndexCopies(index, partial.value, keyIds, valueIds, Lookups(p), Patterns(p))
    ensures IndexLaidOut(index) && RefusesNothing(codec) ==> partial.Ok?
  {
    hide *;
    var dicts := LoadDictionaries(codec, blob, directory, keys, values, index);
    if dicts.Err? {
      return Err(dicts.error), [], [];
    }
    var (keyDicts, valueDicts) := dicts.value;
    NothingSelected();
    var keySelected := SelectKeyTerms(keyDicts, p, map[]);
    var valueSelected := SelectValueTerms(valueDicts, p, map[]);
    KeySelectionExact(keyDicts, keySelected, Patterns(p));
    ValueSelectionExact(valueDicts, valueSelected, Lookups(p));
    SufficientGroups(index, keys, values, p);
    partial, keyIds, valueIds := LoadTermSlices(codec, blob, directory, keyDicts, valueDicts, keySelected, valueSelected,
                                                index, keys, values, Lookups(p), Patterns(p));
  }

  /**
   The search of one segment's index object.  For every predicate and every object that
   decodes to an index, a search that reads only the selected parts returns exactly the
   rows of the whole index.  It fails on no index laid out as the builder lays it out: of
   such an index it never asks for an empty range, which the store would refuse.
   */
  method SearchObject(codec: FstCodec, blob: ByteString, p: SearchPredicate, ghost index: SearchIndex)
    returns (result: Result<set<nat>, LoadError>)
    requires |blob| <= RC.U64_MAX && Decode(codec, blob) == Ok(index)
    ensures result.Ok? ==> result.value == MatchingRows(index, p)
    ensures IndexLaidOut(index) && RefusesNothing(codec) ==> result.Ok?
  {
    DecodedIndexStored(codec, blob, index);
    hide *;
    var loaded := LoadDirectory(blob);
    var directory := loaded.value;
    var keys := SelectKeyGroups(directory.keyGroups, p, {});
    var values := SelectValueGroups(directory.valueGroups, p, {});
    HitsSuffice(codec, blob, directory, index, p);
    var partial, keyIds, valueIds := LoadSelected(codec, blob, directory, keys, values, p, index);
    if partial.Err? {
      return Err(partial.error);
    }
    CopyMatchesSame(index, partial.value, keyIds, valueIds, p);
    return Ok(MatchingRows(partial.value, p));
  }

  lemma {:induction false} NothingSelected()
    ensures NoEmptyGroup(map[])
  {
  }
}
