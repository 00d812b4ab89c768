/**
 What the transactions of the compaction protocol bring about: which head a write leaves, what
 a compaction that runs to its end moves and marks, and what a cleanup removes
 (src/ingest/writer.rs, src/compact/mod.rs).
 */
module CompactionProgress {
  import opened Wrappers
  import opened Sequences
  import opened CompactionProtocol

  // ---- the head a write leaves ----

  /** The record of a run that a segment's rows leave on top: the latest in time, and the last row among those. */
  ghost predicate OnTop(records: seq<Record>, run: RunKey, i: nat, time: int) {
    && i < |records| && records[i].run == run
    && time == (if records[i].end > 0 then records[i].end else records[i].start)
    && forall j :: 0 <= j < |records| && records[j].run == run ==> Beneath(records[j], j, i, time)
  }

  predicate Beneath(record: Record, j: nat, i: nat, time: int) {
    var other := if record.end > 0 then record.end else record.start;
    other < time || (other == time && j <= i)
  }

  /** The old head stays if it is later than the new record, and the new record has it otherwise. */
  ghost predicate TopHas(before: map<RunKey, Head>, after: map<RunKey, Head>, records: seq<Record>, segment: nat, firstEvent: nat, run: RunKey, i: nat, time: int) {
    && OnTop(records, run, i, time) && run in after
    && after[run] == if run in before && before[run].time > time then before[run]
                     else Head(segment, i, records[i].start, records[i].end, time, firstEvent + i, None)
  }

  ghost predicate Written(records: seq<Record>, run: RunKey) {
    exists i :: 0 <= i < |records| && records[i].run == run
  }

  /** Runs of the segment have the newest head, all others the one they had. */
  ghost predicate NewestHead(before: map<RunKey, Head>, after: map<RunKey, Head>, records: seq<Record>, segment: nat, firstEvent: nat, run: RunKey) {
    && (Written(records, run) ==> exists i: nat, time :: TopHas(before, after, records, segment, firstEvent, run, i, time))
    && (!Written(records, run) ==> (run in after <==> run in before) && (run in before && run in after ==> after[run] == before[run]))
  }

  lemma {:induction false} UpsertAllNewest(heads: map<RunKey, Head>, records: seq<Record>, segment: nat, firstEvent: nat, run: RunKey)
    requires forall other :: other in heads ==> heads[other].eventId < firstEvent
    ensures NewestHead(heads, UpsertAll(heads, records, segment, firstEvent), records, segment, firstEvent, run)
  {
    if records != [] {
      var n := |records| - 1;
      UpsertAllNewest(heads, records[..n], segment, firstEvent, run);
      hide UpsertAll;
      UpsertNewest(heads, UpsertAll(heads, records[..n], segment, firstEvent), records, segment, firstEvent, run);
      UpsertLast(heads, records, segment, firstEvent);
    }
  }

  lemma {:induction false} UpsertLast(heads: map<RunKey, Head>, records: seq<Record>, segment: nat, firstEvent: nat)
    requires records != []
    ensures var n := |records| - 1;
            UpsertAll(heads, records, segment, firstEvent) == Upsert(UpsertAll(heads, records[..n], segment, firstEvent), records[n], segment, n, firstEvent + n)
  {
  }

  /** One more row. */
  lemma {:induction false} UpsertNewest(heads: map<RunKey, Head>, middle: map<RunKey, Head>, records: seq<Record>, segment: nat, firstEvent: nat, run: RunKey)
    requires records != [] && forall other :: other in heads ==> heads[other].eventId < firstEvent
    requires NewestHead(heads, middle, records[..|records| - 1], segment, firstEvent, run)
    ensures var n := |records| - 1;
            NewestHead(heads, Upsert(middle, records[n], segment, n, firstEvent + n), records, segment, firstEvent, run)
  {
    var n := |records| - 1;
    var front, last := records[..n], records[n];
    var after := Upsert(middle, last, segment, n, firstEvent + n);
    WrittenLast(records, run);
    if Written(front, run) {
      var i: nat, time: int :| TopHas(heads, middle, front, segment, firstEvent, run, i, time);
      var late := if last.end > 0 then last.end else last.start;
      hide Written;
      if last.run == run && late >= time {
        TopLast(records, run, i, time, late);
        assert TopHas(heads, after, records, segment, firstEvent, run, n, late);
      } else {
        TopStays(records, run, i, time);
        assert TopHas(heads, after, records, segment, firstEvent, run, i, time);
      }
    } else if last.run == run {
      TopFirst(records, run);
      hide Written, OnTop;
      assert TopHas(heads, after, records, segment, firstEvent, run, n, if last.end > 0 then last.end else last.start);
    }
  }

  lemma {:induction false} WrittenLast(records: seq<Record>, run: RunKey)
    requires records != []
    ensures Written(records, run) <==> Written(records[..|records| - 1], run) || records[|records| - 1].run == run
  {
    var n := |records| - 1;
    if i :| 0 <= i < n && records[..n][i].run == run {
      assert records[i].run == run;
    }
    if i :| 0 <= i < |records| && records[i].run == run {
      assert i < n ==> records[..n][i].run == run;
    }
  }

  lemma {:induction false} TopLast(records: seq<Record>, run: RunKey, i: nat, time: int, late: int)
    requires records != [] && OnTop(records[..|records| - 1], run, i, time)
    requires var last := records[|records| - 1]; last.run == run && late == (if last.end > 0 then last.end else last.start) && late >= time
    ensures OnTop(records, run, |records| - 1, late)
  {
    var n := |records| - 1;
    forall j | 0 <= j < |records| && records[j].run == run
      ensures Beneath(records[j], j, n, late)
    {
      assert j < n ==> records[..n][j] == records[j];
    }
  }

  lemma {:induction false} TopStays(records: seq<Record>, run: RunKey, i: nat, time: int)
    requires records != [] && OnTop(records[..|records| - 1], run, i, time)
    requires var last := records[|records| - 1]; last.run != run || (if last.end > 0 then last.end else last.start) < time
    ensures OnTop(records, run, i, time)
  {
    var n := |records| - 1;
    forall j | 0 <= j < |records| && records[j].run == run
      ensures Beneath(records[j], j, i, time)
    {
      assert j < n ==> records[..n][j] == records[j];
    }
  }

  lemma {:induction false} TopFirst(records: seq<Record>, run: RunKey)
    requires records != [] && !Written(records[..|records| - 1], run) && records[|records| - 1].run == run
    ensures OnTop(records, run, |records| - 1, if records[|records| - 1].end > 0 then records[|records| - 1].end else records[|records| - 1].start)
  {
    var n := |records| - 1;
    forall j | 0 <= j < n
      ensures records[j].run != run
    {
      assert records[..n][j].run != run;
    }
  }

  // ---- ingest and delete ----

  /** What `persist_segment` takes: records of one project, with keys of clients, none repeated or logged. */
  ghost predicate Acceptable(s: State, records: seq<Record>) {
    && records != []
    && (forall i :: 0 <= i < |records| ==> records[i].run.project == records[0].run.project)
    && (forall i :: 0 <= i < |records| ==> (records[0].run.project, records[i].key) !in s.events)
    && (forall i, j :: 0 <= i < j < |records| ==> records[i].key != records[j].key)
  }

  ghost predicate KeyLogged(s: State, t: State, records: seq<Record>) {
    && (forall e :: e in s.events ==> e in t.events)
    && (forall i :: 0 <= i < |records| ==> (records[i].run.project, records[i].key) in t.events)
    && forall e :: e in t.events ==> e in s.events || exists i :: 0 <= i < |records| && e == (records[i].run.project, records[i].key)
  }

  /** One new active segment with its object, the keys in the log, and the newest head for every run. */
  ghost predicate SegmentLands(s: State, t: State, records: seq<Record>)
    requires records != []
  {
    && t.segments == s.segments[s.nextSegment := Segment(records[0].run.project, None, false)]
    && t.objects == s.objects + {s.nextSegment}
    && t.nextSegment == s.nextSegment + 1 && t.nextEvent == s.nextEvent + |records|
    && t.deletions == s.deletions && t.cleaners == s.cleaners
    && KeyLogged(s, t, records)
    && forall run :: NewestHead(s.heads, t.heads, records, s.nextSegment, s.nextEvent, run)
  }

  lemma {:induction false} WriteLands(s: State, records: seq<Record>)
    requires HeadsSound(s) && Writable(s, records)
    ensures Acceptable(s, records) && SegmentLands(s, WriteSegment(s, records), records)
  {
    hide NewestHead, UpsertAll, Live;
    forall run
      ensures NewestHead(s.heads, UpsertAll(s.heads, records, s.nextSegment, s.nextEvent), records, s.nextSegment, s.nextEvent, run)
    {
      UpsertAllNewest(s.heads, records, s.nextSegment, s.nextEvent, run);
    }
  }

  /** After any run, an ingest either lands whole, or changes nothing because its records are refused. */
  lemma {:induction false} IngestLands(actions: seq<Action>, records: seq<Record>)
    ensures var s := Run(Initial, actions);
            var t := Step(s, Ingest(records));
            if Acceptable(s, records) && forall i :: 0 <= i < |records| ==> records[i].key.Client?
            then SegmentLands(s, t, records) && t.compactors == s.compactors
            else t == s
  {
    RunKeepsInv(actions);
    var s := Run(Initial, actions);
    hide Run, SegmentLands, HeadsSound, LiveHeadsReadable, IdsKnown, ReplacedMoved, CompactorsCover, CleanersSafe, UpsertAll;
    if Writable(s, records) {
      WriteLands(s, records);
    }
  }

  /** A delete of a live head records the deletion and leaves the row in place; any other changes nothing. */
  lemma {:induction false} DeleteLands(s: State, run: RunKey, deletedAt: int)
    ensures var t := Step(s, Delete(run, deletedAt));
            if run in s.heads && s.heads[run].deletedAt.None?
            then
              && t.deletions == s.deletions + {run} && t.heads.Keys == s.heads.Keys
              && t.heads[run] == Head(s.heads[run].segment, s.heads[run].row, s.heads[run].start, s.heads[run].end, deletedAt, s.nextEvent, Some(deletedAt))
              && (forall other :: other in s.heads && other != run ==> t.heads[other] == s.heads[other])
              && t == s.(heads := t.heads, deletions := t.deletions, nextEvent := s.nextEvent + 1)
            else t == s
  {
  }

  // ---- a compaction that runs to its end ----

  /** A run that queries return: its head is not deleted, and no deletion was recorded. */
  predicate Visible(s: State, run: RunKey) {
    run in s.heads && s.heads[run].deletedAt == None && run !in s.deletions
  }

  /** The record a compactor writes for a visible run. */
  ghost predicate Replaces(s: State, project: string, ids: set<nat>, contents: map<RunKey, string>, r: Record) {
    && r.run.project == project && Visible(s, r.run)
    && r.start == s.heads[r.run].start && r.end == s.heads[r.run].end
    && r.key == Compact(ids, r.run, r.start, r.end, if r.run in contents then contents[r.run] else "")
  }

  /** One replacement for every visible run of the project, in whatever order. */
  ghost predicate ReplacesAll(s: State, project: string, ids: set<nat>, contents: map<RunKey, string>, records: seq<Record>) {
    && (forall i :: 0 <= i < |records| ==> Replaces(s, project, ids, contents, records[i]))
    && (forall i, j :: 0 <= i < j < |records| ==> records[i].run != records[j].run)
    && (forall run :: Visible(s, run) && run.project == project ==> Written(records, run))
  }

  /** The project's segments that no compaction has replaced. */
  ghost predicate ActiveIn(s: State, project: string, ids: set<nat>) {
    forall id: nat :: id in ids <==> id in s.segments && s.segments[id].project == project && s.segments[id].compactedAt == None
  }

  function Writes(c: nat, parts: seq<seq<Record>>): seq<Action> {
    seq(|parts|, i requires 0 <= i < |parts| => WriteReplacement(c, parts[i]))
  }

  function Rest(records: seq<Record>, k: nat): set<Record> {
    set i | k <= i < |records| :: records[i]
  }

  lemma {:induction false} VisibleIsLive(s: State, run: RunKey)
    ensures Visible(s, run) <==> Live(s, run)
  {
  }

  /** What a compactor plans to write is exactly the replacements of the visible runs. */
  lemma {:induction false} PlannedAll(s: State, project: string, ids: set<nat>, contents: map<RunKey, string>, records: seq<Record>)
    requires LiveHeadsReadable(s) && ReplacesAll(s, project, ids, contents, records)
    ensures (set run | run in s.heads && Listed(s, project, run) :: ReplacementFor(s, ids, contents, run)) == Rest(records, 0)
  {
    var planned := set run | run in s.heads && Listed(s, project, run) :: ReplacementFor(s, ids, contents, run);
    forall r | r in Rest(records, 0)
      ensures r in planned
    {
      assert Replaces(s, project, ids, contents, r);
      VisibleIsLive(s, r.run);
      assert Listed(s, project, r.run) && ReplacementFor(s, ids, contents, r.run) == r;
    }
    forall r | r in planned
      ensures r in Rest(records, 0)
    {
      var run :| run in s.heads && Listed(s, project, run) && r == ReplacementFor(s, ids, contents, run);
      VisibleIsLive(s, run);
      var i :| 0 <= i < |records| && records[i].run == run;
      assert Replaces(s, project, ids, contents, records[i]);
      assert records[i] == r;
    }
  }

  /** No replacement is logged before: its run would have left the segments being replaced. */
  lemma {:induction false} ReplacementFresh(s: State, project: string, ids: set<nat>, contents: map<RunKey, string>, r: Record)
    requires Inv(s) && ActiveIn(s, project, ids) && Replaces(s, project, ids, contents, r)
    ensures (project, r.key) !in s.events && s.heads[r.run].time == if r.end > 0 then r.end else r.start
  {
    hide CompactorsCover, CleanersSafe, IdsKnown;
    VisibleIsLive(s, r.run);
    assert s.heads[r.run].segment in ids;
  }

  /** The head is where it was in time, but in an active segment written since. */
  ghost predicate Moved(s: State, t: State, project: string, run: RunKey) {
    && run in s.heads && run in t.heads
    && s.nextSegment <= t.heads[run].segment < t.nextSegment
    && t.heads[run].start == s.heads[run].start && t.heads[run].end == s.heads[run].end
    && t.heads[run].time == s.heads[run].time && t.heads[run].deletedAt == None
  }

  ghost predicate SameHead(s: State, t: State, run: RunKey) {
    && (run in t.heads <==> run in s.heads)
    && (run in s.heads && run in t.heads ==> t.heads[run] == s.heads[run])
  }

  /** New segments hold the project's replacements and nothing else about segments has changed. */
  ghost predicate SegmentsAdded(s: State, t: State, project: string) {
    && s.nextSegment <= t.nextSegment
    && (forall id: nat :: id in t.segments <==> id in s.segments || s.nextSegment <= id < t.nextSegment)
    && (forall id :: id in s.segments ==> id in t.segments && t.segments[id] == s.segments[id])
    && (forall id: nat :: s.nextSegment <= id < t.nextSegment ==> id in t.segments && t.segments[id] == Segment(project, None, false))
    && (forall id: nat :: id in t.objects <==> id in s.objects || s.nextSegment <= id < t.nextSegment)
  }

  /** The first `k` replacements are written. */
  ghost predicate Midway(s: State, t: State, c: nat, project: string, ids: set<nat>, records: seq<Record>, k: nat) {
    && k <= |records|
    && t.compactors == s.compactors[c := Writing(project, ids, Rest(records, k))]
    && t.deletions == s.deletions && t.cleaners == s.cleaners
    && SegmentsAdded(s, t, project)
    && (forall i :: k <= i < |records| ==> (project, records[i].key) !in t.events)
    && (forall i :: 0 <= i < k ==> Moved(s, t, project, records[i].run))
    && (forall run :: !Written(records[..k], run) ==> SameHead(s, t, run))
  }

  lemma {:induction false} MidwayStarts(s: State, c: nat, project: string, ids: set<nat>, contents: map<RunKey, string>, records: seq<Record>)
    requires Inv(s) && ActiveIn(s, project, ids) && ReplacesAll(s, project, ids, contents, records)
    ensures Midway(s, s.(compactors := s.compactors[c := Writing(project, ids, Rest(records, 0))]), c, project, ids, records, 0)
  {
    hide Inv;
    forall i | 0 <= i < |records|
      ensures (project, records[i].key) !in s.events
    {
      ReplacementFresh(s, project, ids, contents, records[i]);
    }
  }

  /** The next records can be written. */
  lemma {:induction false} PartWritable(
    s: State, t: State, c: nat, project: string, ids: set<nat>, contents: map<RunKey, string>, records: seq<Record>, k: nat, n: nat)
    requires ReplacesAll(s, project, ids, contents, records) && Midway(s, t, c, project, ids, records, k) && n > 0 && k + n <= |records|
    ensures Writable(t, records[k..k + n]) && records[k].run.project == project
    ensures forall r :: r in records[k..k + n] ==> r in Rest(records, k)
  {
    hide Visible, SegmentsAdded, Moved, SameHead, Written;
    var part := records[k..k + n];
    forall i | 0 <= i < n
      ensures part[i] == records[k + i] && part[i].run.project == project && (project, part[i].key) !in t.events
      ensures part[i].key.Compact? && part[i].key.run == part[i].run
    {
      assert Replaces(s, project, ids, contents, records[k + i]);
    }
    assert records[k] == part[0];
  }

  /** After the part's segment lands, its runs have moved. */
  lemma {:induction false} PartMoved(
    s: State, t: State, u: State, c: nat, project: string, ids: set<nat>, contents: map<RunKey, string>, records: seq<Record>, k: nat, n: nat, i: nat)
    requires Inv(s) && ActiveIn(s, project, ids) && ReplacesAll(s, project, ids, contents, records) && Midway(s, t, c, project, ids, records, k)
    requires n > 0 && k <= i < k + n <= |records| && SegmentLands(t, u, records[k..k + n])
    ensures Moved(s, u, project, records[i].run)
  {
    hide Inv, Visible, SegmentsAdded, Moved, SameHead, KeyLogged, NewestHead, Rest;
    var part, run := records[k..k + n], records[i].run;
    assert Replaces(s, project, ids, contents, records[i]);
    ReplacementFresh(s, project, ids, contents, records[i]);
    StillThere(s, t, c, project, ids, records, k, i);
    forall j | 0 <= j < n && part[j].run == run
      ensures j == i - k
    {
      assert part[j] == records[k + j];
    }
    assert part[i - k] == records[i];
    assert NewestHead(t.heads, u.heads, part, t.nextSegment, t.nextEvent, run);
    MidwayParts(s, t, c, project, ids, records, k);
    HeadMoves(s, t, u, project, ids, contents, part, i - k);
  }

  /** A run that stands once in a segment, at its head's own time, moves there. */
  lemma {:induction false} HeadMoves(
    s: State, t: State, u: State, project: string, ids: set<nat>, contents: map<RunKey, string>, part: seq<Record>, i: nat)
    requires i < |part| && (forall j :: 0 <= j < |part| && part[j].run == part[i].run ==> j == i)
    requires Replaces(s, project, ids, contents, part[i])
    requires s.heads[part[i].run].time == if part[i].end > 0 then part[i].end else part[i].start
    requires SameHead(s, t, part[i].run) && SegmentsAdded(s, t, project) && u.nextSegment == t.nextSegment + 1
    requires NewestHead(t.heads, u.heads, part, t.nextSegment, t.nextEvent, part[i].run)
    ensures Moved(s, u, project, part[i].run)
  {
    assert Written(part, part[i].run);
    var j: nat, time: int :| TopHas(t.heads, u.heads, part, t.nextSegment, t.nextEvent, part[i].run, j, time);
    assert j == i;
  }

  /** What is not yet written has its old head. */
  lemma {:induction false} StillThere(s: State, t: State, c: nat, project: string, ids: set<nat>, records: seq<Record>, k: nat, i: nat)
    requires Midway(s, t, c, project, ids, records, k) && k <= i < |records|
    requires forall a, b :: 0 <= a < b < |records| ==> records[a].run != records[b].run
    ensures SameHead(s, t, records[i].run)
  {
    hide SegmentsAdded, Moved, SameHead, Rest;
    forall a | 0 <= a < k
      ensures records[..k][a].run != records[i].run
    {
      assert records[..k][a] == records[a];
    }
  }

  lemma {:induction false} RestShrinks(records: seq<Record>, k: nat, n: nat)
    requires k + n <= |records| && forall i, j :: 0 <= i < j < |records| ==> records[i].run != records[j].run
    ensures var part := records[k..k + n];
            Rest(records, k) - (set i | 0 <= i < |part| :: part[i]) == Rest(records, k + n)
  {
    var part := records[k..k + n];
    var written := set i | 0 <= i < |part| :: part[i];
    forall r | r in Rest(records, k + n)
      ensures r in Rest(records, k) && r !in written
    {
    }
    forall i | k <= i < k + n
      ensures records[i] in written
    {
      assert part[i - k] == records[i];
    }
  }

  lemma {:induction false} InvHas(s: State)
    requires Inv(s)
    ensures HeadsSound(s) && IdsKnown(s) && LiveHeadsReadable(s)
  {
    hide HeadsSound, LiveHeadsReadable, IdsKnown, ReplacedMoved, CompactorsCover, CleanersSafe;
  }

  lemma {:induction false} LandsParts(t: State, u: State, part: seq<Record>)
    requires part != [] && SegmentLands(t, u, part)
    ensures KeyLogged(t, u, part)
  {
    hide KeyLogged, NewestHead;
  }

  lemma {:induction false} ReplacesOnce(s: State, project: string, ids: set<nat>, contents: map<RunKey, string>, records: seq<Record>)
    requires ReplacesAll(s, project, ids, contents, records)
    ensures forall i, j :: 0 <= i < j < |records| ==> records[i].run != records[j].run
  {
    hide Replaces, Written, Visible;
  }

  lemma {:induction false} MidwayParts(s: State, t: State, c: nat, project: string, ids: set<nat>, records: seq<Record>, k: nat)
    requires Midway(s, t, c, project, ids, records, k)
    ensures t.compactors == s.compactors[c := Writing(project, ids, Rest(records, k))]
    ensures t.deletions == s.deletions && t.cleaners == s.cleaners && SegmentsAdded(s, t, project)
  {
    hide SegmentsAdded, Moved, SameHead, Written, Rest;
  }

  /** One write of a part. */
  lemma {:induction false} MidwayMoves(
    s: State, t: State, c: nat, project: string, ids: set<nat>, contents: map<RunKey, string>, records: seq<Record>, k: nat, n: nat)
    requires Inv(s) && Inv(t) && ActiveIn(s, project, ids) && ReplacesAll(s, project, ids, contents, records)
    requires Midway(s, t, c, project, ids, records, k) && n > 0 && k + n <= |records|
    ensures Midway(s, Step(t, WriteReplacement(c, records[k..k + n])), c, project, ids, records, k + n)
  {
    var part := records[k..k + n];
    hide Inv, ReplacesAll, Midway, ActiveIn;
    MidwayParts(s, t, c, project, ids, records, k);
    PartWritable(s, t, c, project, ids, contents, records, k, n);
    InvHas(s);
    InvHas(t);
    WriteLands(t, part);
    var u := WriteSegment(t, part);
    hide Writable, WriteSegment, HeadsSound, IdsKnown, SegmentLands, NewestHead, KeyLogged;
    LandsParts(t, u, part);
    ReplacesOnce(s, project, ids, contents, records);
    RestShrinks(records, k, n);
    forall i | k <= i < k + n
      ensures Moved(s, u, project, records[i].run)
    {
      PartMoved(s, t, u, c, project, ids, contents, records, k, n, i);
    }
    forall i | 0 <= i < k
      ensures Moved(s, u, project, records[i].run)
    {
      StayMoved(s, t, u, c, project, ids, contents, records, k, n, i);
    }
    forall run | !Written(records[..k + n], run)
      ensures SameHead(s, u, run)
    {
      StaySame(s, t, u, c, project, ids, records, k, n, run);
    }
    KeysLeft(s, t, u, c, project, ids, contents, records, k, n);
    SegmentsMore(s, t, u, project, part);
    NextIs(s, t, u, c, project, ids, records, k, n);
  }

  lemma {:induction false} NowMidway(s: State, v: State, c: nat, project: string, ids: set<nat>, records: seq<Record>, k: nat)
    requires k <= |records| && v.compactors == s.compactors[c := Writing(project, ids, Rest(records, k))]
    requires v.deletions == s.deletions && v.cleaners == s.cleaners && SegmentsAdded(s, v, project)
    requires forall i :: k <= i < |records| ==> (project, records[i].key) !in v.events
    requires forall i :: 0 <= i < k ==> Moved(s, v, project, records[i].run)
    requires forall run :: !Written(records[..k], run) ==> SameHead(s, v, run)
    ensures Midway(s, v, c, project, ids, records, k)
  {
    hide SegmentsAdded, Moved, SameHead, Written, Rest;
  }

  lemma {:induction false} PendingAt(t: State, c: nat, compactor: Compactor)
    requires c in t.compactors && t.compactors[c] == compactor
    ensures CompactorOf(t, c) == compactor
  {
  }

  lemma {:induction false} WriteKeeps(t: State, part: seq<Record>)
    requires Writable(t, part)
    ensures var u := WriteSegment(t, part); u.deletions == t.deletions && u.cleaners == t.cleaners && u.compactors == t.compactors
  {
    hide Writable, UpsertAll;
  }

  /** The action does the write and takes the part off what is pending. */
  lemma {:induction false} NextIs(s: State, t: State, u: State, c: nat, project: string, ids: set<nat>, records: seq<Record>, k: nat, n: nat)
    requires k + n <= |records| && Writable(t, records[k..k + n]) && u == WriteSegment(t, records[k..k + n])
    requires forall r :: r in records[k..k + n] ==> r in Rest(records, k)
    requires var part := records[k..k + n]; Rest(records, k) - (set i | 0 <= i < |part| :: part[i]) == Rest(records, k + n)
    requires t.compactors == s.compactors[c := Writing(project, ids, Rest(records, k))]
    requires t.deletions == s.deletions && t.cleaners == s.cleaners
    requires SegmentsAdded(s, u, project)
    requires forall i :: k + n <= i < |records| ==> (project, records[i].key) !in u.events
    requires forall i :: 0 <= i < k + n ==> Moved(s, u, project, records[i].run)
    requires forall run :: !Written(records[..k + n], run) ==> SameHead(s, u, run)
    ensures Midway(s, Step(t, WriteReplacement(c, records[k..k + n])), c, project, ids, records, k + n)
  {
    hide *;
    var part := records[k..k + n];
    PendingAt(t, c, Writing(project, ids, Rest(records, k)));
    WriteKeeps(t, part);
    WriteSteps(t, c, project, ids, Rest(records, k), part);
    var v := Step(t, WriteReplacement(c, part));
    var after := Writing(project, ids, Rest(records, k + n));
    assert t.compactors[c := after] == s.compactors[c := after];
    assert v == u.(compactors := s.compactors[c := after]);
    assert u.deletions == s.deletions && u.cleaners == s.cleaners;
    SameParts(s, u, v, project);
    NowMidway(s, v, c, project, ids, records, k + n);
  }

  lemma {:induction false} WriteSteps(t: State, c: nat, project: string, ids: set<nat>, pending: set<Record>, part: seq<Record>)
    requires Writable(t, part) && CompactorOf(t, c) == Writing(project, ids, pending) && forall r :: r in part ==> r in pending
    ensures Step(t, WriteReplacement(c, part))
      == WriteSegment(t, part).(compactors := t.compactors[c := Writing(project, ids, pending - (set i | 0 <= i < |part| :: part[i]))])
  {
    hide Writable, UpsertAll;
    assert forall i :: 0 <= i < |part| ==> part[i] in part;
  }

  /** Compactors' bookkeeping shows in neither heads nor segments. */
  lemma {:induction false} SameParts(s: State, u: State, v: State, project: string)
    requires v.heads == u.heads && v.segments == u.segments && v.nextSegment == u.nextSegment && v.objects == u.objects
    ensures SegmentsAdded(s, u, project) ==> SegmentsAdded(s, v, project)
    ensures forall run :: Moved(s, u, project, run) ==> Moved(s, v, project, run)
    ensures forall run :: SameHead(s, u, run) ==> SameHead(s, v, run)
  {
  }

  lemma {:induction false} StayMoved(
    s: State, t: State, u: State, c: nat, project: string, ids: set<nat>, contents: map<RunKey, string>, records: seq<Record>, k: nat, n: nat, i: nat)
    requires ReplacesAll(s, project, ids, contents, records) && Midway(s, t, c, project, ids, records, k)
    requires i < k && n > 0 && k + n <= |records| && SegmentLands(t, u, records[k..k + n])
    ensures Moved(s, u, project, records[i].run)
  {
    hide Replaces, SegmentsAdded, Rest;
    var part, run := records[k..k + n], records[i].run;
    forall j | 0 <= j < n
      ensures part[j].run != run
    {
      assert part[j] == records[k + j];
    }
    assert Moved(s, t, project, run);
    assert !Written(part, run);
    assert NewestHead(t.heads, u.heads, part, t.nextSegment, t.nextEvent, run);
  }

  lemma {:induction false} StaySame(
    s: State, t: State, u: State, c: nat, project: string, ids: set<nat>, records: seq<Record>, k: nat, n: nat, run: RunKey)
    requires Midway(s, t, c, project, ids, records, k) && n > 0 && k + n <= |records| && SegmentLands(t, u, records[k..k + n])
    requires !Written(records[..k + n], run)
    ensures SameHead(s, u, run)
  {
    hide SegmentsAdded, Rest, Moved;
    var part := records[k..k + n];
    forall j | 0 <= j < n
      ensures part[j].run != run
    {
      assert part[j] == records[..k + n][k + j];
    }
    forall j | 0 <= j < k
      ensures records[..k][j].run != run
    {
      assert records[..k][j] == records[..k + n][j];
    }
    assert SameHead(s, t, run);
    assert NewestHead(t.heads, u.heads, part, t.nextSegment, t.nextEvent, run);
  }

  lemma {:induction false} KeysLeft(
    s: State, t: State, u: State, c: nat, project: string, ids: set<nat>, contents: map<RunKey, string>, records: seq<Record>, k: nat, n: nat)
    requires ReplacesAll(s, project, ids, contents, records) && Midway(s, t, c, project, ids, records, k)
    requires n > 0 && k + n <= |records| && KeyLogged(t, u, records[k..k + n])
    ensures forall i :: k + n <= i < |records| ==> (project, records[i].key) !in u.events
  {
    hide SegmentsAdded, Rest, Moved, SameHead, Written, Visible;
    var part := records[k..k + n];
    forall i | k + n <= i < |records|
      ensures (project, records[i].key) !in u.events
    {
      assert Replaces(s, project, ids, contents, records[i]);
      forall j | 0 <= j < n
        ensures part[j].key != records[i].key
      {
        assert part[j] == records[k + j];
        assert Replaces(s, project, ids, contents, records[k + j]);
      }
    }
  }

  lemma {:induction false} SegmentsMore(s: State, t: State, u: State, project: string, part: seq<Record>)
    requires IdsKnown(s) && SegmentsAdded(s, t, project) && part != [] && SegmentLands(t, u, part) && part[0].run.project == project
    ensures SegmentsAdded(s, u, project)
  {
    hide NewestHead, KeyLogged;
  }

  lemma {:induction false} RunJoin(s: State, a: seq<Action>, b: seq<Action>)
    ensures Run(s, a + b) == Run(Run(s, a), b)
  {
    hide Step;
    if b == [] {
      assert a + b == a;
    } else {
      var n := |b| - 1;
      RunJoin(s, a, b[..n]);
      assert (a + b)[..|a| + n] == a + b[..n] && (a + b)[|a| + n] == b[n];
    }
  }

  lemma {:induction false} RunOne(s: State, a: Action)
    ensures Run(s, [a]) == Step(s, a)
  {
    hide Step;
    assert [a][..0] == [];
  }

  lemma {:induction false} WritesLast(c: nat, parts: seq<seq<Record>>, s: State)
    requires parts != []
    ensures var n := |parts| - 1;
            Run(s, Writes(c, parts)) == Step(Run(s, Writes(c, parts[..n])), WriteReplacement(c, parts[n]))
  {
    hide Step;
    var n := |parts| - 1;
    assert Writes(c, parts)[..n] == Writes(c, parts[..n]);
  }

  /** The parts are written one after another, each as its own segment. */
  lemma {:induction false} AllWritten(
    s: State, t: State, c: nat, project: string, ids: set<nat>, contents: map<RunKey, string>, records: seq<Record>, k: nat, parts: seq<seq<Record>>)
    requires Inv(s) && Inv(t) && ActiveIn(s, project, ids) && ReplacesAll(s, project, ids, contents, records)
    requires Midway(s, t, c, project, ids, records, 0)
    requires k <= |records| && Flatten(parts) == records[..k] && forall i :: 0 <= i < |parts| ==> parts[i] != []
    ensures Midway(s, Run(t, Writes(c, parts)), c, project, ids, records, k) && Inv(Run(t, Writes(c, parts)))
  {
    hide Inv, ActiveIn, ReplacesAll, Midway, Step;
    if parts != [] {
      var n := |parts| - 1;
      var last := parts[n];
      FlattenLast(parts);
      var j := k - |last|;
      assert records[..j] == Flatten(parts[..n]) && records[j..k] == last by {
        assert |Flatten(parts[..n])| == j;
        assert records[..k][..j] == records[..j] && records[..k][j..] == records[j..k];
      }
      AllWritten(s, t, c, project, ids, contents, records, j, parts[..n]);
      var u := Run(t, Writes(c, parts[..n]));
      MidwayMoves(s, u, c, project, ids, contents, records, j, |last|);
      StepKeepsInv(u, WriteReplacement(c, last));
      WritesLast(c, parts, t);
      assert j + |last| == k;
    }
  }

  /** The compactor's first transactions find the active segments and plan every replacement, or give up. */
  lemma {:induction false} ReadsPlan(
    s: State, c: nat, project: string, ids: set<nat>, contents: map<RunKey, string>, records: seq<Record>)
    requires Inv(s) && CompactorOf(s, c).Idle? && ActiveIn(s, project, ids) && ReplacesAll(s, project, ids, contents, records)
    ensures Run(s, [ReadIds(c, project), ReadHeads(c, contents), DropDeleted(c)])
      == s.(compactors := s.compactors[c := if |ids| > 1 && records != [] then Writing(project, ids, Rest(records, 0)) else Idle])
  {
    var after := if |ids| > 1 && records != [] then Writing(project, ids, Rest(records, 0)) else Idle;
    var read := s.(compactors := s.compactors[c := IdsRead(project, ids)]);
    var planned := s.(compactors := s.compactors[c := after]);
    IdsAre(s, project, ids);
    InvHas(s);
    PlannedAll(s, project, ids, contents, records);
    assert Step(s, ReadIds(c, project)) == read;
    SameListed(s, read, project, ids, contents);
    PlanStep(s, read, c, project, ids, contents, records);
    DropNothing(s, planned, c, project, ids, contents, records);
    ThreeSteps(s, ReadIds(c, project), ReadHeads(c, contents), DropDeleted(c));
  }

  lemma {:induction false} IdsAre(s: State, project: string, ids: set<nat>)
    requires ActiveIn(s, project, ids)
    ensures ActiveIds(s, project) == ids
  {
  }

  lemma {:induction false} SameListed(s: State, t: State, project: string, ids: set<nat>, contents: map<RunKey, string>)
    requires t.heads == s.heads && t.deletions == s.deletions && t.segments == s.segments
    ensures (set run | run in s.heads && Listed(s, project, run) :: ReplacementFor(s, ids, contents, run))
         == (set run | run in t.heads && Listed(t, project, run) :: ReplacementFor(t, ids, contents, run))
  {
    assert forall run :: Listed(s, project, run) <==> Listed(t, project, run);
    assert forall run :: run in s.heads ==> ReplacementFor(s, ids, contents, run) == ReplacementFor(t, ids, contents, run);
  }

  lemma {:induction false} PlanEmpty(records: seq<Record>)
    ensures Rest(records, 0) == {} <==> records == []
  {
    if records != [] {
      assert records[0] in Rest(records, 0);
    }
  }

  lemma {:induction false} PlanStep(
    s: State, read: State, c: nat, project: string, ids: set<nat>, contents: map<RunKey, string>, records: seq<Record>)
    requires read == s.(compactors := s.compactors[c := IdsRead(project, ids)])
    requires (set run | run in read.heads && Listed(read, project, run) :: ReplacementFor(read, ids, contents, run)) == Rest(records, 0)
    ensures Step(read, ReadHeads(c, contents))
      == s.(compactors := s.compactors[c := if |ids| > 1 && records != [] then Writing(project, ids, Rest(records, 0)) else Idle])
  {
    PendingAt(read, c, IdsRead(project, ids));
    PlanEmpty(records);
    hide Listed, ReplacementFor, Rest, CompactorOf;
    var pending := set run | run in read.heads && Listed(read, project, run) :: ReplacementFor(read, ids, contents, run);
    var after := if pending == {} || |ids| <= 1 then Idle else Writing(project, ids, pending);
    assert read.compactors[c := after] == s.compactors[c := after];
    assert Step(read, ReadHeads(c, contents)) == read.(compactors := read.compactors[c := after]);
  }

  lemma {:induction false} DropNothing(
    s: State, planned: State, c: nat, project: string, ids: set<nat>, contents: map<RunKey, string>, records: seq<Record>)
    requires ReplacesAll(s, project, ids, contents, records)
    requires planned.deletions == s.deletions && c in planned.compactors
    requires planned.compactors[c] == Idle || planned.compactors[c] == Writing(project, ids, Rest(records, 0))
    ensures Step(planned, DropDeleted(c)) == planned
  {
    hide Written;
    forall r | r in Rest(records, 0)
      ensures r.run !in s.deletions
    {
      assert Replaces(s, project, ids, contents, r);
    }
    assert (set r | r in Rest(records, 0) && r.run !in s.deletions) == Rest(records, 0);
    assert planned.compactors[c := planned.compactors[c]] == planned.compactors;
  }

  lemma {:induction false} ThreeSteps(s: State, a: Action, b: Action, d: Action)
    ensures Run(s, [a, b, d]) == Step(Step(Step(s, a), b), d)
  {
    hide *;
    RunOne(s, a);
    RunOne(Step(s, a), b);
    RunOne(Step(Step(s, a), b), d);
    RunJoin(s, [a], [b]);
    RunJoin(s, [a] + [b], [d]);
    assert [a] + [b] + [d] == [a, b, d];
  }

  /** A compactor without work does nothing more. */
  lemma {:induction false} IdleWrites(s: State, c: nat, parts: seq<seq<Record>>, now: int)
    requires CompactorOf(s, c).Idle?
    ensures Run(s, Writes(c, parts)) == s && Step(s, MarkCompacted(c, now)) == s
  {
    if parts != [] {
      IdleWrites(s, c, parts[..|parts| - 1], now);
      WritesLast(c, parts, s);
    }
  }

  /** A compactor's transactions, from reading the segments to marking them. */
  function Compaction(c: nat, project: string, contents: map<RunKey, string>, parts: seq<seq<Record>>, now: int): seq<Action> {
    [ReadIds(c, project), ReadHeads(c, contents), DropDeleted(c)] + Writes(c, parts) + [MarkCompacted(c, now)]
  }

  ghost predicate MarkedAs(s: State, t: State, project: string, ids: set<nat>, now: int, id: nat)
    requires id in s.segments
  {
    && id in t.segments
    && t.segments[id] == if id in ids then Segment(project, Some(now), s.segments[id].objectDeleted) else s.segments[id]
  }

  /** The old segments are marked, and every visible run of the project points into the new ones. */
  ghost predicate Compacted(s: State, t: State, c: nat, project: string, ids: set<nat>, now: int) {
    && s.nextSegment <= t.nextSegment
    && (forall id: nat :: id in t.segments <==> id in s.segments || s.nextSegment <= id < t.nextSegment)
    && (forall id :: id in s.segments ==> MarkedAs(s, t, project, ids, now, id))
    && (forall id: nat :: s.nextSegment <= id < t.nextSegment ==> id in t.segments && t.segments[id] == Segment(project, None, false))
    && (forall id: nat :: id in t.objects <==> id in s.objects || s.nextSegment <= id < t.nextSegment)
    && (forall run :: Visible(s, run) && run.project == project ==> Moved(s, t, project, run))
    && (forall run :: !(Visible(s, run) && run.project == project) ==> SameHead(s, t, run))
    && t.deletions == s.deletions && t.cleaners == s.cleaners && t.compactors == s.compactors[c := Idle]
  }

  lemma {:induction false} MarkCompacts(
    s: State, t: State, c: nat, project: string, ids: set<nat>, contents: map<RunKey, string>, records: seq<Record>, now: int)
    requires IdsKnown(s) && ActiveIn(s, project, ids) && ReplacesAll(s, project, ids, contents, records)
    requires Midway(s, t, c, project, ids, records, |records|)
    ensures Compacted(s, Step(t, MarkCompacted(c, now)), c, project, ids, now)
  {
    hide *;
    var u := t.(segments := Mark(t.segments, ids, now), compactors := s.compactors[c := Idle]);
    MarkStep(s, t, c, project, ids, records, now);
    MarkedRuns(s, t, c, project, ids, contents, records);
    MidwayParts(s, t, c, project, ids, records, |records|);
    SameParts(s, t, u.(segments := t.segments), project);
    SameMoves(s, u.(segments := t.segments), u, project);
    MarkedSegments(s, t, u, project, ids, now);
    NowCompacted(s, u, c, project, ids, now);
  }

  lemma {:induction false} MarkStep(s: State, t: State, c: nat, project: string, ids: set<nat>, records: seq<Record>, now: int)
    requires Midway(s, t, c, project, ids, records, |records|)
    ensures Step(t, MarkCompacted(c, now)) == t.(segments := Mark(t.segments, ids, now), compactors := s.compactors[c := Idle])
  {
    hide Mark, SegmentsAdded, Moved, SameHead, Written;
    assert Rest(records, |records|) == {};
    assert t.compactors[c := Idle] == s.compactors[c := Idle];
  }

  /** Segments do not show in heads. */
  lemma {:induction false} SameMoves(s: State, t: State, u: State, project: string)
    requires u.heads == t.heads && u.nextSegment == t.nextSegment
    ensures forall run :: Moved(s, t, project, run) ==> Moved(s, u, project, run)
    ensures forall run :: SameHead(s, t, run) ==> SameHead(s, u, run)
  {
  }

  lemma {:induction false} NowCompacted(s: State, t: State, c: nat, project: string, ids: set<nat>, now: int)
    requires s.nextSegment <= t.nextSegment
    requires forall id: nat :: id in t.segments <==> id in s.segments || s.nextSegment <= id < t.nextSegment
    requires forall id :: id in s.segments ==> MarkedAs(s, t, project, ids, now, id)
    requires forall id: nat :: s.nextSegment <= id < t.nextSegment ==> id in t.segments && t.segments[id] == Segment(project, None, false)
    requires forall id: nat :: id in t.objects <==> id in s.objects || s.nextSegment <= id < t.nextSegment
    requires forall run :: Visible(s, run) && run.project == project ==> Moved(s, t, project, run)
    requires forall run :: !(Visible(s, run) && run.project == project) ==> SameHead(s, t, run)
    requires t.deletions == s.deletions && t.cleaners == s.cleaners && t.compactors == s.compactors[c := Idle]
    ensures Compacted(s, t, c, project, ids, now)
  {
    hide Visible, Moved, SameHead, MarkedAs;
  }

  lemma {:induction false} MarkedRuns(
    s: State, t: State, c: nat, project: string, ids: set<nat>, contents: map<RunKey, string>, records: seq<Record>)
    requires ReplacesAll(s, project, ids, contents, records) && Midway(s, t, c, project, ids, records, |records|)
    ensures forall run :: Visible(s, run) && run.project == project ==> Moved(s, t, project, run)
    ensures forall run :: !(Visible(s, run) && run.project == project) ==> SameHead(s, t, run)
  {
    hide Moved, SameHead, SegmentsAdded, Visible;
    assert records[..|records|] == records;
    forall run | Visible(s, run) && run.project == project
      ensures Moved(s, t, project, run)
    {
      var i :| 0 <= i < |records| && records[i].run == run;
    }
    forall run | !(Visible(s, run) && run.project == project)
      ensures SameHead(s, t, run)
    {
      forall i | 0 <= i < |records|
        ensures records[i].run != run
      {
        assert Replaces(s, project, ids, contents, records[i]);
      }
    }
  }

  lemma {:induction false} MarkedSegments(s: State, t: State, u: State, project: string, ids: set<nat>, now: int)
    requires IdsKnown(s) && ActiveIn(s, project, ids) && SegmentsAdded(s, t, project)
    requires u.segments == Mark(t.segments, ids, now) && u.nextSegment == t.nextSegment && u.objects == t.objects
    ensures s.nextSegment <= u.nextSegment
    ensures forall id: nat :: id in u.segments <==> id in s.segments || s.nextSegment <= id < u.nextSegment
    ensures forall id :: id in s.segments ==> MarkedAs(s, u, project, ids, now, id)
    ensures forall id: nat :: s.nextSegment <= id < u.nextSegment ==> id in u.segments && u.segments[id] == Segment(project, None, false)
    ensures forall id: nat :: id in u.objects <==> id in s.objects || s.nextSegment <= id < u.nextSegment
  {
  }

  /**
   Undisturbed, a compaction of two or more active segments comes to its end, however the
   replacements are cut into segments: none of its writes is refused, the old segments are
   marked, every visible run keeps its head's times in an active segment written since, and
   no other head changes.  With fewer segments or nothing visible it changes nothing.
   */
  lemma {:induction false} CompactionCompletes(
    history: seq<Action>, c: nat, project: string, ids: set<nat>, contents: map<RunKey, string>, records: seq<Record>,
    parts: seq<seq<Record>>, now: int)
    requires var s := Run(Initial, history);
             && (c in s.compactors ==> s.compactors[c] == Idle)
             && ActiveIn(s, project, ids) && ReplacesAll(s, project, ids, contents, records)
    requires Flatten(parts) == records && forall i :: 0 <= i < |parts| ==> parts[i] != []
    ensures var s := Run(Initial, history);
            var t := Run(s, Compaction(c, project, contents, parts, now));
            if |ids| > 1 && records != [] then Compacted(s, t, c, project, ids, now) else t == s.(compactors := s.compactors[c := Idle])
  {
    RunKeepsInv(history);
    var s := Run(Initial, history);
    var opening := [ReadIds(c, project), ReadHeads(c, contents), DropDeleted(c)];
    var read := Run(s, opening);
    assert CompactorOf(s, c).Idle?;
    ReadsPlan(s, c, project, ids, contents, records);
    RunJoin(s, opening, Writes(c, parts));
    RunJoin(s, opening + Writes(c, parts), [MarkCompacted(c, now)]);
    RunOne(Run(read, Writes(c, parts)), MarkCompacted(c, now));
    hide Run, Inv, ActiveIn, ReplacesAll, Step, Compacted, Midway, Writes;
    if |ids| > 1 && records != [] {
      MidwayStarts(s, c, project, ids, contents, records);
      StillInv(history, opening);
      assert records[..|records|] == records;
      AllWritten(s, read, c, project, ids, contents, records, |records|, parts);
      InvHas(s);
      MarkCompacts(s, Run(read, Writes(c, parts)), c, project, ids, contents, records, now);
    } else {
      assert CompactorOf(read, c).Idle?;
      IdleWrites(read, c, parts, now);
    }
  }

  lemma {:induction false} StillInv(history: seq<Action>, more: seq<Action>)
    ensures Inv(Run(Run(Initial, history), more))
  {
    hide Inv;
    RunJoin(Initial, history, more);
    RunKeepsInv(history + more);
  }

  // ---- a cleanup that runs to its end ----

  /** What a cleanup may remove: compacted long enough ago and not removed yet. */
  ghost predicate Removable(s: State, cutoff: int, id: nat) {
    && id in s.segments && !s.segments[id].objectDeleted
    && s.segments[id].compactedAt.Some? && s.segments[id].compactedAt.value <= cutoff
  }

  function Deletes(d: nat, order: seq<nat>): seq<Action> {
    seq(|order|, i requires 0 <= i < |order| => CleanupDelete(d, order[i]))
  }

  function Among(order: seq<nat>): set<nat> {
    set id | id in order
  }

  lemma {:induction false} DeletesRun(s: State, d: nat, order: seq<nat>)
    requires forall i :: 0 <= i < |order| ==> order[i] in CleanerOf(s, d)
    ensures Run(s, Deletes(d, order)) == s.(objects := s.objects - Among(order))
  {
    if order != [] {
      var n := |order| - 1;
      var before := s.(objects := s.objects - Among(order[..n]));
      DeletesRun(s, d, order[..n]);
      DeleteStep(before, d, order[n]);
      assert order == order[..n] + [order[n]];
      assert Among(order) == Among(order[..n]) + {order[n]};
      hide Step, Among;
      assert Deletes(d, order)[..n] == Deletes(d, order[..n]);
      assert s.objects - Among(order) == s.objects - Among(order[..n]) - {order[n]};
    } else {
      assert Among(order) == {} && s.objects - {} == s.objects;
    }
  }

  lemma {:induction false} DeleteStep(s: State, d: nat, id: nat)
    requires id in CleanerOf(s, d)
    ensures Step(s, CleanupDelete(d, id)) == s.(objects := s.objects - {id})
  {
  }

  ghost predicate RemovedAs(s: State, t: State, cutoff: int, id: nat)
    requires id in s.segments
  {
    && id in t.segments
    && t.segments[id] == if Removable(s, cutoff, id) then s.segments[id].(objectDeleted := true) else s.segments[id]
  }

  /** Undisturbed, a cleanup removes exactly the objects of the removable segments and notes it. */
  lemma {:induction false} CleanupRemoves(s: State, d: nat, cutoff: int, order: seq<nat>)
    requires forall id: nat :: id in order <==> Removable(s, cutoff, id)
    ensures var t := Run(s, [CleanupRead(d, cutoff)] + Deletes(d, order) + [CleanupMark(d)]);
            && (forall id: nat :: id in t.objects <==> id in s.objects && !Removable(s, cutoff, id))
            && t.segments.Keys == s.segments.Keys
            && (forall id :: id in s.segments ==> RemovedAs(s, t, cutoff, id))
            && t == s.(objects := t.objects, segments := t.segments, cleaners := s.cleaners[d := {}])
  {
    hide *;
    var read := s.(cleaners := s.cleaners[d := Among(order)]);
    var done := read.(objects := read.objects - Among(order));
    CandidatesAre(s, d, cutoff, order);
    RunOne(s, CleanupRead(d, cutoff));
    RunJoin(s, [CleanupRead(d, cutoff)], Deletes(d, order));
    RunJoin(s, [CleanupRead(d, cutoff)] + Deletes(d, order), [CleanupMark(d)]);
    DeletesRun(read, d, order);
    RunOne(done, CleanupMark(d));
    CleanupMarks(s, done, d, cutoff, order);
  }

  lemma {:induction false} CandidatesAre(s: State, d: nat, cutoff: int, order: seq<nat>)
    requires forall id: nat :: id in order <==> Removable(s, cutoff, id)
    ensures var read := s.(cleaners := s.cleaners[d := Among(order)]);
            && Step(s, CleanupRead(d, cutoff)) == read && forall i :: 0 <= i < |order| ==> order[i] in CleanerOf(read, d)
  {
    assert CleanupCandidates(s, cutoff) == Among(order);
  }

  lemma {:induction false} CleanupMarks(s: State, done: State, d: nat, cutoff: int, order: seq<nat>)
    requires forall id: nat :: id in order <==> Removable(s, cutoff, id)
    requires done == s.(cleaners := s.cleaners[d := Among(order)], objects := s.objects - Among(order))
    ensures var t := Step(done, CleanupMark(d));
            && (forall id: nat :: id in t.objects <==> id in s.objects && !Removable(s, cutoff, id))
            && t.segments.Keys == s.segments.Keys
            && (forall id :: id in s.segments ==> RemovedAs(s, t, cutoff, id))
            && t == s.(objects := t.objects, segments := t.segments, cleaners := s.cleaners[d := {}])
  {
    assert CleanerOf(done, d) == Among(order);
    assert done.cleaners[d := {}] == s.cleaners[d := {}];
    hide Removable;
  }
}
