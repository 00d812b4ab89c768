/**
 Ingest, delete, compaction and compacted-object cleanup as one state machine.
 Every transaction is one atomic action; a compactor's reads, its segment writes and its final
 mark are separate actions, so any number of compactors, ingests, deletes and cleaners interleave.
 */
module CompactionProtocol {
  import opened Wrappers

  datatype RunKey = RunKey(project: string, traceId: string, spanId: string)

  /** The idempotency key of an event.  Compaction keys name the batch of segments being replaced. */
  datatype EventKey =
    | Client(text: string)
    | Compact(batch: set<nat>, run: RunKey, start: int, end: int, content: string)

  datatype Record = Record(run: RunKey, start: int, end: int, key: EventKey)

  datatype Segment = Segment(project: string, compactedAt: Option<int>, objectDeleted: bool)

  /** `start` and `end` are those of the record the head points at. */
  datatype Head = Head(segment: nat, row: nat, start: int, end: int, time: int, eventId: nat, deletedAt: Option<int>)

  datatype Compactor =
    | Idle
    | IdsRead(project: string, ids: set<nat>)
    | Writing(project: string, ids: set<nat>, pending: set<Record>)

  datatype State = State(
    segments: map<nat, Segment>,
    objects: set<nat>,
    heads: map<RunKey, Head>,
    deletions: set<RunKey>,
    events: set<(string, EventKey)>,
    nextSegment: nat,
    nextEvent: nat,
    compactors: map<nat, Compactor>,
    cleaners: map<nat, set<nat>>)

  datatype Action =
    | Ingest(records: seq<Record>)
    | Delete(run: RunKey, deletedAt: int)
    | ReadIds(compactor: nat, project: string)
    | ReadHeads(compactor: nat, contents: map<RunKey, string>)
    | DropDeleted(compactor: nat)
    | DropDuplicates(compactor: nat, dropped: set<Record>)
    | WriteReplacement(compactor: nat, records: seq<Record>)
    | MarkCompacted(compactor: nat, now: int)
    | Abort(compactor: nat)
    | CleanupRead(cleaner: nat, cutoff: int)
    | CleanupDelete(cleaner: nat, segment: nat)
    | CleanupMark(cleaner: nat)

  const Initial := State(map[], {}, map[], {}, {}, 0, 1, map[], map[])

  /** `event_time_unix_nano`. */
  function EventTime(start: int, end: int): int {
    if end > 0 then end else start
  }

  /** The guarded upsert of `run_heads`: newer time, or equal time and no smaller event id. */
  function Upsert(heads: map<RunKey, Head>, record: Record, segment: nat, row: nat, eventId: nat): map<RunKey, Head> {
    var time := EventTime(record.start, record.end);
    if record.run in heads && !(heads[record.run].time < time || (heads[record.run].time == time && heads[record.run].eventId <= eventId))
    then heads
    else heads[record.run := Head(segment, row, record.start, record.end, time, eventId, None)]
  }

  /** The rows of one segment are applied in order, each with its own fresh event id. */
  function UpsertAll(heads: map<RunKey, Head>, records: seq<Record>, segment: nat, eventId: nat): map<RunKey, Head> {
    if records == [] then heads
    else
      var n := |records| - 1;
      Upsert(UpsertAll(heads, records[..n], segment, eventId), records[n], segment, n, eventId + n)
  }

  /** `persist_segment`: refused on an empty batch, mixed projects or a known key (the transaction rolls back). */
  predicate Writable(s: State, records: seq<Record>) {
    && records != []
    && (forall i :: 0 <= i < |records| ==> records[i].run.project == records[0].run.project)
    && (forall i :: 0 <= i < |records| ==> (records[i].run.project, records[i].key) !in s.events)
    && (forall i, j :: 0 <= i < j < |records| ==> records[i].key != records[j].key)
  }

  function WriteSegment(s: State, records: seq<Record>): State
    requires Writable(s, records)
  {
    s.(segments := s.segments[s.nextSegment := Segment(records[0].run.project, None, false)],
       objects := s.objects + {s.nextSegment},
       heads := UpsertAll(s.heads, records, s.nextSegment, s.nextEvent),
       events := s.events + (set i | 0 <= i < |records| :: (records[i].run.project, records[i].key)),
       nextSegment := s.nextSegment + 1,
       nextEvent := s.nextEvent + |records|)
  }

  /** A head the planner returns: not deleted and without a `run_deletions` row. */
  predicate Live(s: State, run: RunKey) {
    run in s.heads && s.heads[run].deletedAt.None? && run !in s.deletions
  }

  function ActiveIds(s: State, project: string): set<nat> {
    set id | id in s.segments && s.segments[id].project == project && s.segments[id].compactedAt.None?
  }

  predicate Listed(s: State, project: string, run: RunKey) {
    && Live(s, run) && run.project == project
    && s.heads[run].segment in s.segments && s.segments[s.heads[run].segment].compactedAt.None?
  }

  function ReplacementFor(s: State, ids: set<nat>, contents: map<RunKey, string>, run: RunKey): Record
    requires run in s.heads
  {
    var head := s.heads[run];
    Record(run, head.start, head.end, Compact(ids, run, head.start, head.end, if run in contents then contents[run] else ""))
  }

  /** `delete_run_in_tx`: the tombstone advances the head, keeps its row, and records the deletion. */
  function DeleteRun(s: State, run: RunKey, deletedAt: int): State
    requires run in s.heads
  {
    s.(heads := s.heads[run := s.heads[run].(deletedAt := Some(deletedAt), time := deletedAt, eventId := s.nextEvent)],
       deletions := s.deletions + {run},
       nextEvent := s.nextEvent + 1)
  }

  function Mark(segments: map<nat, Segment>, ids: set<nat>, now: int): map<nat, Segment> {
    map id | id in segments ::
      if id in ids && segments[id].compactedAt.None? then segments[id].(compactedAt := Some(now)) else segments[id]
  }

  function CleanupCandidates(s: State, cutoff: int): set<nat> {
    set id | id in s.segments && s.segments[id].compactedAt.Some? && !s.segments[id].objectDeleted
             && s.segments[id].compactedAt.value <= cutoff
  }

  function CompactorOf(s: State, c: nat): Compactor {
    if c in s.compactors then s.compactors[c] else Idle
  }

  function CleanerOf(s: State, c: nat): set<nat> {
    if c in s.cleaners then s.cleaners[c] else {}
  }

  /** One action.  An action whose guard fails (a rolled-back transaction, an early return) changes nothing. */
  function Step(s: State, a: Action): State {
    match a
    case Ingest(records) =>
      if Writable(s, records) && forall i :: 0 <= i < |records| ==> records[i].key.Client? then WriteSegment(s, records) else s
    case Delete(run, deletedAt) =>
      if run in s.heads && s.heads[run].deletedAt.None? then DeleteRun(s, run, deletedAt) else s
    case ReadIds(c, project) =>
      if CompactorOf(s, c).Idle? then s.(compactors := s.compactors[c := IdsRead(project, ActiveIds(s, project))]) else s
    case ReadHeads(c, contents) =>
      (match CompactorOf(s, c)
       case IdsRead(project, ids) =>
         var pending := set run | run in s.heads && Listed(s, project, run) :: ReplacementFor(s, ids, contents, run);
         if pending == {} || |ids| <= 1 then s.(compactors := s.compactors[c := Idle])
         else s.(compactors := s.compactors[c := Writing(project, ids, pending)])
       case _ => s)
    case DropDeleted(c) =>
      (match CompactorOf(s, c)
       case Writing(project, ids, pending) =>
         s.(compactors := s.compactors[c := Writing(project, ids, set r | r in pending && r.run !in s.deletions)])
       case _ => s)
    case DropDuplicates(c, dropped) =>
      (match CompactorOf(s, c)
       case Writing(project, ids, pending) =>
         if forall r :: r in dropped ==> (r.run.project, r.key) in s.events
         then s.(compactors := s.compactors[c := Writing(project, ids, pending - dropped)]) else s
       case _ => s)
    case WriteReplacement(c, records) =>
      (match CompactorOf(s, c)
       case Writing(project, ids, pending) =>
         if (forall i :: 0 <= i < |records| ==> records[i] in pending) && Writable(s, records)
         then WriteSegment(s, records).(compactors := s.compactors[c := Writing(project, ids, pending - (set i | 0 <= i < |records| :: records[i]))])
         else s
       case _ => s)
    case MarkCompacted(c, now) =>
      (match CompactorOf(s, c)
       case Writing(project, ids, pending) =>
         if pending == {} then s.(segments := Mark(s.segments, ids, now), compactors := s.compactors[c := Idle]) else s
       case _ => s)
    case Abort(c) => s.(compactors := s.compactors[c := Idle])
    case CleanupRead(c, cutoff) => s.(cleaners := s.cleaners[c := CleanupCandidates(s, cutoff)])
    case CleanupDelete(c, segment) =>
      if segment in CleanerOf(s, c) then s.(objects := s.objects - {segment}) else s
    case CleanupMark(c) =>
      s.(segments := map id | id in s.segments ::
           if id in CleanerOf(s, c) then s.segments[id].(objectDeleted := true) else s.segments[id],
         cleaners := s.cleaners[c := {}])
  }

  function Run(s: State, actions: seq<Action>): State {
    if actions == [] then s else Step(Run(s, actions[..|actions| - 1]), actions[|actions| - 1])
  }

  // ---- the invariant ----

  ghost predicate HeadsSound(s: State) {
    forall run :: run in s.heads ==>
      && s.heads[run].eventId < s.nextEvent
      && s.heads[run].segment in s.segments
      && s.segments[s.heads[run].segment].project == run.project
      && (Live(s, run) ==> s.heads[run].time == EventTime(s.heads[run].start, s.heads[run].end))
  }

  /** The safety property: what a live head points at is neither compacted nor removed. */
  ghost predicate LiveHeadsReadable(s: State) {
    forall run :: Live(s, run) ==>
      && s.heads[run].segment in s.segments
      && s.segments[s.heads[run].segment].compactedAt.None?
      && s.heads[run].segment in s.objects
  }

  ghost predicate IdsKnown(s: State) {
    && (forall id :: id in s.segments ==> id < s.nextSegment)
    && (forall p, k :: (p, k) in s.events && k.Compact? ==> forall id :: id in k.batch ==> id < s.nextSegment)
    && (forall c, id :: c in s.compactors && !s.compactors[c].Idle? && id in s.compactors[c].ids ==>
          id in s.segments && s.segments[id].project == s.compactors[c].project)
  }

  /** A committed replacement has already moved its run off the replaced segments, or a newer event has arrived. */
  ghost predicate ReplacedMoved(s: State) {
    forall p, k :: (p, k) in s.events && k.Compact? && Live(s, k.run) && s.heads[k.run].segment in k.batch ==>
      s.heads[k.run].time > EventTime(k.start, k.end)
  }

  /** Every live head still inside a compactor's segments waits in its pending records. */
  ghost predicate PendingCovers(s: State, ids: set<nat>, project: string, pending: set<Record>) {
    && (forall r :: r in pending ==> r.key.Compact? && r.key.batch == ids && r.key.run == r.run
                                     && r.key.start == r.start && r.key.end == r.end && r.run.project == project)
    && (forall run :: Live(s, run) && run.project == project && s.heads[run].segment in ids ==>
          exists r :: r in pending && r.run == run && r.start == s.heads[run].start && r.end == s.heads[run].end)
  }

  ghost predicate CompactorsCover(s: State) {
    forall c :: c in s.compactors && s.compactors[c].Writing? ==>
      PendingCovers(s, s.compactors[c].ids, s.compactors[c].project, s.compactors[c].pending)
  }

  ghost predicate CleanersSafe(s: State) {
    forall c, id :: c in s.cleaners && id in s.cleaners[c] ==> id in s.segments && s.segments[id].compactedAt.Some?
  }

  ghost predicate Inv(s: State) {
    HeadsSound(s) && LiveHeadsReadable(s) && IdsKnown(s) && ReplacedMoved(s) && CompactorsCover(s) && CleanersSafe(s)
  }

  // ---- one segment write ----

  ghost predicate FreshHead(head: Head, segment: nat, nextEvent: nat) {
    && head.segment == segment && head.deletedAt.None? && head.eventId < nextEvent
    && head.time == EventTime(head.start, head.end)
  }

  /** What a write does to the heads: each stays as it was or moves to the new segment, and no written record is left behind an equal or older head elsewhere. */
  ghost predicate HeadsMoved(before: map<RunKey, Head>, after: map<RunKey, Head>, records: seq<Record>, segment: nat, nextEvent: nat) {
    && before.Keys <= after.Keys
    && (forall run :: run in after ==>
          (run in before && after[run] == before[run]) || FreshHead(after[run], segment, nextEvent))
    && (forall i :: 0 <= i < |records| ==> Superseded(after, records[i], segment))
  }

  ghost predicate Superseded(heads: map<RunKey, Head>, record: Record, segment: nat) {
    && record.run in heads
    && (heads[record.run].segment == segment || heads[record.run].time > EventTime(record.start, record.end))
  }

  lemma {:induction false} UpsertAllMoves(heads: map<RunKey, Head>, records: seq<Record>, segment: nat, eventId: nat)
    requires forall run :: run in heads ==> heads[run].eventId < eventId
    ensures HeadsMoved(heads, UpsertAll(heads, records, segment, eventId), records, segment, eventId + |records|)
  {
    if records != [] {
      var n := |records| - 1;
      var front := records[..n];
      UpsertAllMoves(heads, front, segment, eventId);
      forall i | 0 <= i < n
        ensures Superseded(UpsertAll(heads, front, segment, eventId), records[i], segment)
      {
        assert front[i] == records[i];
      }
    }
  }

  lemma {:induction false} UpsertAllProject(heads: map<RunKey, Head>, records: seq<Record>, segment: nat, eventId: nat, project: string)
    requires forall i :: 0 <= i < |records| ==> records[i].run.project == project
    ensures forall run :: run in UpsertAll(heads, records, segment, eventId) ==>
      run.project == project || (run in heads && UpsertAll(heads, records, segment, eventId)[run] == heads[run])
  {
    if records != [] {
      UpsertAllProject(heads, records[..|records| - 1], segment, eventId, project);
    }
  }

  /** A committed segment write, as the other actions see it. */
  ghost predicate Written(s: State, t: State, records: seq<Record>) {
    && HeadsMoved(s.heads, t.heads, records, s.nextSegment, t.nextEvent)
    && t.segments.Keys == s.segments.Keys + {s.nextSegment} && t.segments[s.nextSegment].compactedAt.None?
    && (forall run :: run in t.heads ==>
          run.project == t.segments[s.nextSegment].project || (run in s.heads && t.heads[run] == s.heads[run]))
    && (forall id :: id in s.segments && id != s.nextSegment ==> t.segments[id] == s.segments[id])
    && t.objects == s.objects + {s.nextSegment}
    && (forall e :: e in t.events ==>
          e in s.events || exists i :: 0 <= i < |records| && e == (records[i].run.project, records[i].key))
    && t.deletions == s.deletions && t.compactors == s.compactors && t.cleaners == s.cleaners
    && t.nextSegment == s.nextSegment + 1 && t.nextEvent >= s.nextEvent
  }

  lemma {:induction false} WriteIsWritten(s: State, records: seq<Record>)
    requires HeadsSound(s) && Writable(s, records)
    ensures Written(s, WriteSegment(s, records), records)
  {
    hide HeadsMoved, UpsertAll;
    UpsertAllMoves(s.heads, records, s.nextSegment, s.nextEvent);
    UpsertAllProject(s.heads, records, s.nextSegment, s.nextEvent, records[0].run.project);
  }

  lemma {:induction false} WriteKeepsHeads(s: State, t: State, records: seq<Record>)
    requires HeadsSound(s) && LiveHeadsReadable(s) && IdsKnown(s) && Written(s, t, records)
    ensures HeadsSound(t) && LiveHeadsReadable(t)
  {
    forall run | run in t.heads && run in s.heads && t.heads[run] == s.heads[run]
      ensures t.heads[run].segment != s.nextSegment && (Live(t, run) ==> Live(s, run))
    {
    }
  }

  /** The compaction keys of a write describe their own records and name existing segments. */
  ghost predicate KeysDescribe(s: State, records: seq<Record>) {
    forall i :: 0 <= i < |records| && records[i].key.Compact? ==>
      && records[i].key.batch <= s.segments.Keys && records[i].key.run == records[i].run
      && records[i].key.start == records[i].start && records[i].key.end == records[i].end
  }

  lemma {:induction false} WriteKeepsReplaced(s: State, t: State, records: seq<Record>)
    requires IdsKnown(s) && ReplacedMoved(s) && Written(s, t, records) && KeysDescribe(s, records)
    ensures IdsKnown(t) && ReplacedMoved(t)
  {
    forall p, k, id | (p, k) in t.events && k.Compact? && id in k.batch
      ensures id < s.nextSegment
    {
    }
    forall p, k | (p, k) in t.events && k.Compact? && Live(t, k.run) && t.heads[k.run].segment in k.batch
      ensures t.heads[k.run].time > EventTime(k.start, k.end)
    {
      assert t.heads[k.run].segment != s.nextSegment;
      assert Live(s, k.run);
      if (p, k) !in s.events {
        var i :| 0 <= i < |records| && (p, k) == (records[i].run.project, records[i].key);
        assert Superseded(t.heads, records[i], s.nextSegment);
      }
    }
  }

  /** A write can only empty a compactor's segments of live heads. */
  lemma {:induction false} WriteKeepsPending(s: State, t: State, records: seq<Record>, ids: set<nat>, project: string, pending: set<Record>)
    requires Written(s, t, records) && PendingCovers(s, ids, project, pending)
    requires forall id :: id in ids ==> id < s.nextSegment
    ensures PendingCovers(t, ids, project, pending)
  {
    forall run | Live(t, run) && run.project == project && t.heads[run].segment in ids
      ensures exists r :: r in pending && r.run == run && r.start == t.heads[run].start && r.end == t.heads[run].end
    {
      assert run in s.heads && t.heads[run] == s.heads[run];
      assert Live(s, run);
    }
  }

  /** The compactor's own write: a written record's run has left its segments, so the rest still covers them. */
  lemma {:induction false} OwnWriteKeepsPending(s: State, t: State, records: seq<Record>, ids: set<nat>, project: string, pending: set<Record>)
    requires HeadsSound(s) && Written(s, t, records) && PendingCovers(s, ids, project, pending)
    requires forall id :: id in ids ==> id < s.nextSegment
    ensures PendingCovers(t, ids, project, pending - (set i | 0 <= i < |records| :: records[i]))
  {
    var written := set i | 0 <= i < |records| :: records[i];
    forall run | Live(t, run) && run.project == project && t.heads[run].segment in ids
      ensures exists r :: r in pending - written && r.run == run && r.start == t.heads[run].start && r.end == t.heads[run].end
    {
      assert run in s.heads && t.heads[run] == s.heads[run];
      assert Live(s, run);
      var r :| r in pending && r.run == run && r.start == s.heads[run].start && r.end == s.heads[run].end;
      assert !Superseded(t.heads, r, s.nextSegment);
    }
  }

  /** A committed write of well-described keys keeps the invariant. */
  lemma {:induction false} WriteKeepsInv(s: State, records: seq<Record>)
    requires Inv(s) && Writable(s, records) && KeysDescribe(s, records)
    ensures Inv(WriteSegment(s, records))
  {
    hide HeadsSound, LiveHeadsReadable, ReplacedMoved, PendingCovers, Live, HeadsMoved, UpsertAll, WriteSegment, KeysDescribe;
    var t := WriteSegment(s, records);
    WriteIsWritten(s, records);
    WriteKeepsHeads(s, t, records);
    WriteKeepsReplaced(s, t, records);
    forall c | c in t.compactors && t.compactors[c].Writing?
      ensures PendingCovers(t, t.compactors[c].ids, t.compactors[c].project, t.compactors[c].pending)
    {
      assert forall id :: id in s.compactors[c].ids ==> id in s.segments;
      WriteKeepsPending(s, t, records, t.compactors[c].ids, t.compactors[c].project, t.compactors[c].pending);
    }
    NewSegmentFresh(s, t, records);
  }

  lemma {:induction false} NewSegmentFresh(s: State, t: State, records: seq<Record>)
    requires IdsKnown(s) && CleanersSafe(s) && Written(s, t, records)
    ensures CleanersSafe(t)
  {
    hide HeadsMoved;
  }

  // ---- the other actions ----

  lemma {:induction false} DeleteKeepsInv(s: State, run: RunKey, deletedAt: int)
    requires Inv(s) && run in s.heads
    ensures Inv(DeleteRun(s, run, deletedAt))
  {
    var t := DeleteRun(s, run, deletedAt);
    LiveShrinks(s, t);
    forall other | other in t.heads && other != run
      ensures t.heads[other] == s.heads[other]
    {
    }
  }

  /** Fewer live runs with unchanged heads: every statement about live runs carries over. */
  lemma {:induction false} LiveShrinks(s: State, t: State)
    requires Inv(s)
    requires forall run :: Live(t, run) ==> Live(s, run) && t.heads[run] == s.heads[run]
    requires t.segments == s.segments && t.objects == s.objects && t.events == s.events
    requires t.compactors == s.compactors && t.cleaners == s.cleaners && t.nextSegment == s.nextSegment
    ensures LiveHeadsReadable(t) && IdsKnown(t) && ReplacedMoved(t) && CompactorsCover(t) && CleanersSafe(t)
  {
    forall c | c in t.compactors && t.compactors[c].Writing?
      ensures PendingCovers(t, t.compactors[c].ids, t.compactors[c].project, t.compactors[c].pending)
    {
      assert PendingCovers(s, s.compactors[c].ids, s.compactors[c].project, s.compactors[c].pending);
    }
  }

  /** Only one compactor's bookkeeping changes, and its new state is covered. */
  lemma {:induction false} CompactorKeepsInv(s: State, c: nat, compactor: Compactor)
    requires Inv(s)
    requires !compactor.Idle? ==> forall id :: id in compactor.ids ==> id in s.segments && s.segments[id].project == compactor.project
    requires compactor.Writing? ==> PendingCovers(s, compactor.ids, compactor.project, compactor.pending)
    ensures Inv(s.(compactors := s.compactors[c := compactor]))
  {
    var t := s.(compactors := s.compactors[c := compactor]);
    LiveSame(s, t);
    forall d | d in t.compactors && t.compactors[d].Writing?
      ensures PendingCovers(t, t.compactors[d].ids, t.compactors[d].project, t.compactors[d].pending)
    {
      if d != c {
        assert PendingCovers(s, s.compactors[d].ids, s.compactors[d].project, s.compactors[d].pending);
      }
    }
  }

  lemma {:induction false} PendingSame(s: State, t: State)
    requires t.heads == s.heads && t.deletions == s.deletions
    ensures forall ids, project, pending :: PendingCovers(s, ids, project, pending) ==> PendingCovers(t, ids, project, pending)
  {
    LiveSame(s, t);
  }

  lemma {:induction false} LiveSame(s: State, t: State)
    requires t.heads == s.heads && t.deletions == s.deletions
    ensures forall run :: Live(t, run) <==> Live(s, run)
  {
  }

  lemma {:induction false} ReadHeadsCovers(s: State, project: string, ids: set<nat>, contents: map<RunKey, string>)
    requires Inv(s)
    ensures PendingCovers(s, ids, project, set run | run in s.heads && Listed(s, project, run) :: ReplacementFor(s, ids, contents, run))
  {
    hide IdsKnown, ReplacedMoved, CompactorsCover, CleanersSafe;
    var pending := set run | run in s.heads && Listed(s, project, run) :: ReplacementFor(s, ids, contents, run);
    forall run | Live(s, run) && run.project == project && s.heads[run].segment in ids
      ensures exists r :: r in pending && r.run == run && r.start == s.heads[run].start && r.end == s.heads[run].end
    {
      assert Listed(s, project, run);
      assert ReplacementFor(s, ids, contents, run) in pending;
    }
  }

  /** A dropped duplicate was already committed with the same key, so its run is no longer in the segments. */
  lemma {:induction false} DropDuplicatesCovers(s: State, ids: set<nat>, project: string, pending: set<Record>, dropped: set<Record>)
    requires Inv(s) && PendingCovers(s, ids, project, pending)
    requires forall r :: r in dropped ==> (r.run.project, r.key) in s.events
    ensures PendingCovers(s, ids, project, pending - dropped)
  {
    hide LiveHeadsReadable, IdsKnown, CompactorsCover, CleanersSafe;
    forall run | Live(s, run) && run.project == project && s.heads[run].segment in ids
      ensures exists r :: r in pending - dropped && r.run == run && r.start == s.heads[run].start && r.end == s.heads[run].end
    {
      var r :| r in pending && r.run == run && r.start == s.heads[run].start && r.end == s.heads[run].end;
      assert r.key.Compact? && r.key.run == run && s.heads[run].segment in r.key.batch;
      assert (r.run.project, r.key) !in s.events;
    }
  }

  lemma {:induction false} DropDeletedCovers(s: State, ids: set<nat>, project: string, pending: set<Record>)
    requires PendingCovers(s, ids, project, pending)
    ensures PendingCovers(s, ids, project, set r | r in pending && r.run !in s.deletions)
  {
  }

  /** Marking is safe once nothing is pending: no live head is left in the marked segments. */
  lemma {:induction false} MarkKeepsInv(s: State, c: nat, now: int)
    requires Inv(s) && CompactorOf(s, c).Writing? && CompactorOf(s, c).pending == {}
    ensures Inv(s.(segments := Mark(s.segments, s.compactors[c].ids, now), compactors := s.compactors[c := Idle]))
  {
    var Writing(project, ids, pending) := s.compactors[c];
    var u := s.(segments := Mark(s.segments, ids, now));
    LiveSame(s, u);
    assert PendingCovers(s, ids, project, pending);
    forall run | Live(u, run)
      ensures u.segments[u.heads[run].segment].compactedAt.None?
    {
      assert Live(s, run);
      assert s.segments[s.heads[run].segment].project == run.project;
      assert s.heads[run].segment in ids ==> run.project == project;
    }
    forall d | d in u.compactors && u.compactors[d].Writing?
      ensures PendingCovers(u, u.compactors[d].ids, u.compactors[d].project, u.compactors[d].pending)
    {
      assert PendingCovers(s, s.compactors[d].ids, s.compactors[d].project, s.compactors[d].pending);
    }
    assert Inv(u);
    CompactorKeepsInv(u, c, Idle);
  }

  /** Cleanup touches compacted segments only. */
  lemma {:induction false} CleanupReadKeepsInv(s: State, cleaner: nat, cutoff: int)
    requires Inv(s)
    ensures Inv(Step(s, CleanupRead(cleaner, cutoff)))
  {
    hide PendingCovers, Live;
    PendingSame(s, Step(s, CleanupRead(cleaner, cutoff)));
    LiveSame(s, Step(s, CleanupRead(cleaner, cutoff)));
  }

  lemma {:induction false} CleanupDeleteKeepsInv(s: State, cleaner: nat, segment: nat)
    requires Inv(s)
    ensures Inv(Step(s, CleanupDelete(cleaner, segment)))
  {
    hide PendingCovers, Live;
    PendingSame(s, Step(s, CleanupDelete(cleaner, segment)));
    LiveSame(s, Step(s, CleanupDelete(cleaner, segment)));
  }

  lemma {:induction false} CleanupMarkKeepsInv(s: State, cleaner: nat)
    requires Inv(s)
    ensures Inv(Step(s, CleanupMark(cleaner)))
  {
    hide PendingCovers, Live;
    PendingSame(s, Step(s, CleanupMark(cleaner)));
    LiveSame(s, Step(s, CleanupMark(cleaner)));
  }

  lemma {:induction false} CleanupKeepsInv(s: State, a: Action)
    requires Inv(s) && (a.CleanupRead? || a.CleanupDelete? || a.CleanupMark?)
    ensures Inv(Step(s, a))
  {
    hide Inv, Step;
    match a
    case CleanupRead(cleaner, cutoff) => CleanupReadKeepsInv(s, cleaner, cutoff);
    case CleanupDelete(cleaner, segment) => CleanupDeleteKeepsInv(s, cleaner, segment);
    case CleanupMark(cleaner) => CleanupMarkKeepsInv(s, cleaner);
  }

  lemma {:induction false} OwnWriteKeepsInv(s: State, c: nat, records: seq<Record>)
    requires Inv(s) && CompactorOf(s, c).Writing? && Writable(s, records)
    requires forall i :: 0 <= i < |records| ==> records[i] in CompactorOf(s, c).pending
    ensures Inv(Step(s, WriteReplacement(c, records)))
  {
    hide HeadsSound, LiveHeadsReadable, ReplacedMoved, UpsertAll, Live, HeadsMoved;
    var Writing(project, ids, pending) := s.compactors[c];
    assert PendingCovers(s, ids, project, pending);
    assert KeysDescribe(s, records);
    WriteKeepsInv(s, records);
    WriteIsWritten(s, records);
    OwnWriteKeepsPending(s, WriteSegment(s, records), records, ids, project, pending);
    CompactorKeepsInv(WriteSegment(s, records), c, Writing(project, ids, pending - (set i | 0 <= i < |records| :: records[i])));
  }

  /** Every action keeps the invariant. */
  lemma {:induction false} StepKeepsInv(s: State, a: Action)
    requires Inv(s)
    ensures Inv(Step(s, a))
  {
    hide HeadsSound, LiveHeadsReadable, ReplacedMoved, PendingCovers, CleanersSafe, UpsertAll, Live, Mark;
    match a
    case Ingest(records) =>
      if Writable(s, records) && forall i :: 0 <= i < |records| ==> records[i].key.Client? {
        WriteKeepsInv(s, records);
      }
    case Delete(run, deletedAt) =>
      if run in s.heads && s.heads[run].deletedAt.None? {
        DeleteKeepsInv(s, run, deletedAt);
      }
    case ReadIds(c, project) =>
      if CompactorOf(s, c).Idle? {
        CompactorKeepsInv(s, c, IdsRead(project, ActiveIds(s, project)));
      }
    case ReadHeads(c, contents) =>
      if CompactorOf(s, c).IdsRead? {
        var IdsRead(project, ids) := CompactorOf(s, c);
        var pending := set run | run in s.heads && Listed(s, project, run) :: ReplacementFor(s, ids, contents, run);
        ReadHeadsCovers(s, project, ids, contents);
        CompactorKeepsInv(s, c, Idle);
        CompactorKeepsInv(s, c, Writing(project, ids, pending));
      }
    case DropDeleted(c) =>
      if CompactorOf(s, c).Writing? {
        var Writing(project, ids, pending) := CompactorOf(s, c);
        DropDeletedCovers(s, ids, project, pending);
        CompactorKeepsInv(s, c, Writing(project, ids, set r | r in pending && r.run !in s.deletions));
      }
    case DropDuplicates(c, dropped) =>
      if CompactorOf(s, c).Writing? && forall r :: r in dropped ==> (r.run.project, r.key) in s.events {
        var Writing(project, ids, pending) := CompactorOf(s, c);
        DropDuplicatesCovers(s, ids, project, pending, dropped);
        CompactorKeepsInv(s, c, Writing(project, ids, pending - dropped));
      }
    case WriteReplacement(c, records) =>
      if CompactorOf(s, c).Writing? && Writable(s, records)
         && forall i :: 0 <= i < |records| ==> records[i] in CompactorOf(s, c).pending {
        OwnWriteKeepsInv(s, c, records);
      }
    case MarkCompacted(c, now) =>
      if CompactorOf(s, c).Writing? && CompactorOf(s, c).pending == {} {
        MarkKeepsInv(s, c, now);
      }
    case Abort(c) =>
      CompactorKeepsInv(s, c, Idle);
    case _ =>
      CleanupKeepsInv(s, a);
  }

  lemma {:induction false} RunKeepsInv(actions: seq<Action>)
    ensures Inv(Run(Initial, actions))
  {
    if actions != [] {
      RunKeepsInv(actions[..|actions| - 1]);
      StepKeepsInv(Run(Initial, actions[..|actions| - 1]), actions[|actions| - 1]);
    }
  }

  /**
   In every interleaving, no live head points at a segment marked compacted, and the object a
   live head needs is never removed.
   */
  lemma {:induction false} LiveHeadsNeverCompacted(actions: seq<Action>, run: RunKey)
    requires var s := Run(Initial, actions); run in s.heads && s.heads[run].deletedAt == None && run !in s.deletions
    ensures var s := Run(Initial, actions);
      && s.heads[run].segment in s.segments
      && s.segments[s.heads[run].segment].compactedAt.None?
      && s.heads[run].segment in s.objects
      && (forall c :: c in s.cleaners ==> s.heads[run].segment !in s.cleaners[c])
  {
    RunKeepsInv(actions);
  }
}
