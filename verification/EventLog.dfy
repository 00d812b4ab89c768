/**
 The event log and its materialised views: run heads, run locators and trace locators are
 upserted under a "not older" guard as events arrive in any order, a delete writes a tombstone,
 and a replay folds the time-ordered log of one run.
 */
module EventLog {
  import opened Wrappers
  import Ordering

  type RunKey = string

  datatype Event = Event(id: nat, run: RunKey, tombstone: bool, time: int, segment: nat, row: nat, key: string)

  /** Where a view row points and which event put it there. */
  datatype Pointer = Pointer(segment: nat, row: nat, tombstone: bool, time: int, eventId: nat)

  datatype Head = Head(pointer: Pointer, deletedAt: Option<int>)

  datatype Tables = Tables(
    log: seq<Event>,
    heads: map<RunKey, Head>,
    runLocators: map<RunKey, Pointer>,
    traceLocators: map<RunKey, Pointer>)

  function PointerOf(e: Event): Pointer {
    Pointer(e.segment, e.row, e.tombstone, e.time, e.id)
  }

  /** The guard of the three upserts. */
  predicate NotNewer(stored: Pointer, e: Event) {
    stored.time < e.time || (stored.time == e.time && stored.eventId <= e.id)
  }

  function UpsertHead(heads: map<RunKey, Head>, e: Event): map<RunKey, Head> {
    if e.run !in heads || NotNewer(heads[e.run].pointer, e) then heads[e.run := Head(PointerOf(e), None)] else heads
  }

  function UpsertLocator(locators: map<RunKey, Pointer>, e: Event): map<RunKey, Pointer> {
    if e.run !in locators || NotNewer(locators[e.run], e) then locators[e.run := PointerOf(e)] else locators
  }

  function Ingest(t: Tables, e: Event): Tables {
    Tables(t.log + [e], UpsertHead(t.heads, e), UpsertLocator(t.runLocators, e), UpsertLocator(t.traceLocators, e))
  }

  predicate SameTombstone(e: Event, run: RunKey, at: int) {
    e.tombstone && e.run == run && e.time == at
  }

  /** The id of the tombstone already logged for this run and time, if any (the key conflict of the insert). */
  function FindTombstone(log: seq<Event>, run: RunKey, at: int): Option<nat> {
    if log == [] then None
    else if SameTombstone(log[0], run, at) then Some(log[0].id)
    else FindTombstone(log[1..], run, at)
  }

  function Advance(locators: map<RunKey, Pointer>, run: RunKey, at: int, id: nat): map<RunKey, Pointer> {
    if run in locators then locators[run := locators[run].(tombstone := true, time := at, eventId := id)] else locators
  }

  predicate Deletable(t: Tables, run: RunKey) {
    run in t.heads && t.heads[run].deletedAt.None?
  }

  /** `delete_run_in_tx`: nothing happens unless the head exists and is not deleted yet. */
  function Delete(t: Tables, run: RunKey, at: int, freshId: nat): Tables {
    if !Deletable(t, run) then t
    else
      var head := t.heads[run];
      var known := FindTombstone(t.log, run, at);
      var id := if known.Some? then known.value else freshId;
      var log := if known.Some? then t.log
                 else t.log + [Event(freshId, run, true, at, head.pointer.segment, head.pointer.row, "")];
      Tables(log,
             t.heads[run := Head(head.pointer.(tombstone := true, time := at, eventId := id), Some(at))],
             Advance(t.runLocators, run, at, id),
             Advance(t.traceLocators, run, at, id))
  }

  // ---- replay ----

  function RunEvents(log: seq<Event>, run: RunKey): seq<Event> {
    if log == [] then []
    else if log[0].run == run then [log[0]] + RunEvents(log[1..], run)
    else RunEvents(log[1..], run)
  }

  /** ORDER BY event_time_unix_nano, id. */
  predicate EventLeq(a: Event, b: Event) {
    a.time < b.time || (a.time == b.time && a.id <= b.id)
  }

  function FoldEvents(events: seq<Event>): Option<(nat, nat)> {
    if events == [] then None
    else
      var last := events[|events| - 1];
      if last.tombstone then None else Some((last.segment, last.row))
  }

  function Replay(log: seq<Event>, run: RunKey): Option<(nat, nat)> {
    FoldEvents(Ordering.SortBy(RunEvents(log, run), EventLeq))
  }

  /** `replay_event_locator`: the fold over the ordered rows of one run. */
  method ReplayEventLocator(log: seq<Event>, run: RunKey) returns (replayed: Option<(nat, nat)>)
    ensures replayed == Replay(log, run)
  {
    var rows := Ordering.SortBy(RunEvents(log, run), EventLeq);
    replayed := None;
    for i := 0 to |rows|
      invariant replayed == FoldEvents(rows[..i])
    {
      assert rows[..i + 1] == rows[..i] + [rows[i]];
      replayed := if rows[i].tombstone then None else Some((rows[i].segment, rows[i].row));
    }
    assert rows[..|rows|] == rows;
  }

  // ---- agreement ----

  ghost predicate Latest(log: seq<Event>, run: RunKey, e: Event) {
    && e in log && e.run == run
    && forall f :: f in log && f.run == run ==> f.time < e.time || (f.time == e.time && f.id <= e.id)
  }

  ghost predicate Mentions(log: seq<Event>, run: RunKey) {
    exists e :: e in log && e.run == run
  }

  /** The three views name the latest event of the run, and the head is marked deleted exactly on a tombstone. */
  ghost predicate ShowsLatest(t: Tables, run: RunKey, e: Event) {
    && Latest(t.log, run, e)
    && run in t.heads && run in t.runLocators && run in t.traceLocators
    && t.heads[run].pointer == PointerOf(e)
    && t.runLocators[run] == PointerOf(e)
    && t.traceLocators[run] == PointerOf(e)
    && (t.heads[run].deletedAt.Some? <==> e.tombstone)
  }

  ghost predicate Agrees(t: Tables, run: RunKey) {
    if Mentions(t.log, run) then exists e :: ShowsLatest(t, run, e)
    else run !in t.heads && run !in t.runLocators && run !in t.traceLocators
  }

  ghost predicate Valid(t: Tables) {
    && (forall e, f :: e in t.log && f in t.log && e.id == f.id ==> e == f)
    && (forall run :: Agrees(t, run))
  }

  predicate Unused(log: seq<Event>, id: nat) {
    forall i :: 0 <= i < |log| ==> log[i].id != id
  }

  /** Events may arrive in any order: only the id has to be new. */
  lemma {:induction false} IngestKeepsAgreement(t: Tables, e: Event)
    requires Valid(t) && Unused(t.log, e.id) && !e.tombstone
    ensures Valid(Ingest(t, e))
  {
    var u := Ingest(t, e);
    forall run
      ensures Agrees(u, run)
    {
      assert Agrees(t, run);
      assert Mentions(t.log, run) ==> Mentions(u.log, run);
      if run == e.run {
        assert e in u.log;
        if Mentions(t.log, run) {
          var f :| ShowsLatest(t, run, f);
          assert EventLeq(f, e) <==> NotNewer(PointerOf(f), e);
          assert ShowsLatest(u, run, if EventLeq(f, e) then e else f);
        } else {
          assert ShowsLatest(u, run, e);
        }
      } else if Mentions(u.log, run) {
        var g :| g in u.log && g.run == run;
        assert g in t.log;
        var f :| ShowsLatest(t, run, f);
        assert ShowsLatest(u, run, f);
      }
    }
  }

  lemma {:induction false} FindTombstoneSpec(log: seq<Event>, run: RunKey, at: int)
    ensures FindTombstone(log, run, at).None? <==> forall e :: e in log ==> !SameTombstone(e, run, at)
    ensures FindTombstone(log, run, at).Some? ==>
      exists e :: e in log && SameTombstone(e, run, at) && e.id == FindTombstone(log, run, at).value
  {
    if log != [] {
      FindTombstoneSpec(log[1..], run, at);
      assert log == [log[0]] + log[1..];
      if FindTombstone(log[1..], run, at).Some? && !SameTombstone(log[0], run, at) {
        var e :| e in log[1..] && SameTombstone(e, run, at) && e.id == FindTombstone(log[1..], run, at).value;
        assert e in log;
      }
    }
  }

  /** A delete that a caller may issue: dated after the head, or at the same time when no tombstone has that time yet. */
  predicate Dated(t: Tables, run: RunKey, at: int)
    requires run in t.heads
  {
    at > t.heads[run].pointer.time
    || (at == t.heads[run].pointer.time && FindTombstone(t.log, run, at).None?)
  }

  lemma {:induction false} DatedDeleteKeepsAgreement(t: Tables, run: RunKey, at: int, freshId: nat)
    requires Valid(t) && Deletable(t, run) && forall e :: e in t.log ==> e.id < freshId
    requires Dated(t, run, at)
    ensures Valid(Delete(t, run, at, freshId))
  {
    var u := Delete(t, run, at, freshId);
    FindTombstoneSpec(t.log, run, at);
    assert Agrees(t, run);
    var f :| ShowsLatest(t, run, f);
    var e := Event(freshId, run, true, at, f.segment, f.row, "");
    assert u.log == t.log + [e];
    assert e in u.log && ShowsLatest(u, run, e);
    hide FindTombstone;
    forall other | other != run
      ensures Agrees(u, other)
    {
      assert Agrees(t, other);
      OthersUntouched(t, u, e, other);
    }
  }

  /** An event of one run leaves what the tables say of another. */
  lemma {:induction false} OthersUntouched(t: Tables, u: Tables, e: Event, other: RunKey)
    requires Agrees(t, other) && u.log == t.log + [e] && e.run != other
    requires (other in u.heads <==> other in t.heads) && (other in t.heads ==> u.heads[other] == t.heads[other])
    requires (other in u.runLocators <==> other in t.runLocators) && (other in t.runLocators ==> u.runLocators[other] == t.runLocators[other])
    requires (other in u.traceLocators <==> other in t.traceLocators) && (other in t.traceLocators ==> u.traceLocators[other] == t.traceLocators[other])
    ensures Agrees(u, other)
  {
    if Mentions(u.log, other) {
      var g :| g in u.log && g.run == other;
      assert g in t.log;
      var h :| ShowsLatest(t, other, h);
      assert ShowsLatest(u, other, h);
    }
  }

  lemma {:induction false} UndatedDeleteBreaksAgreement(t: Tables, run: RunKey, at: int, freshId: nat)
    requires Valid(t) && Deletable(t, run) && forall e :: e in t.log ==> e.id < freshId
    requires !Dated(t, run, at)
    ensures !Agrees(Delete(t, run, at, freshId), run)
  {
    var u := Delete(t, run, at, freshId);
    FindTombstoneSpec(t.log, run, at);
    assert Agrees(t, run);
    var f :| ShowsLatest(t, run, f);
    assert f in u.log;
    forall e
      ensures !ShowsLatest(u, run, e)
    {
    }
  }

  /**
   The exact condition under which a delete keeps the three views, the log and the replay in step.
   "Not dated before the head" is not enough: a second delete at the time of an earlier tombstone reuses
   the old event id and moves the head backwards.
   */
  lemma {:induction false} DeleteKeepsAgreementIff(t: Tables, run: RunKey, at: int, freshId: nat)
    requires Valid(t) && Deletable(t, run) && forall e :: e in t.log ==> e.id < freshId
    ensures Valid(Delete(t, run, at, freshId)) <==> Dated(t, run, at)
  {
    if Dated(t, run, at) {
      DatedDeleteKeepsAgreement(t, run, at, freshId);
    } else {
      UndatedDeleteBreaksAgreement(t, run, at, freshId);
    }
  }

  // ---- replay agrees with the head ----

  lemma {:induction false} RunEventsSpec(log: seq<Event>, run: RunKey)
    ensures forall e :: e in RunEvents(log, run) <==> e in log && e.run == run
  {
    if log != [] {
      RunEventsSpec(log[1..], run);
      assert log == [log[0]] + log[1..];
    }
  }

  /** The replay of the sorted log yields nothing exactly when the head is deleted, and otherwise the row the head points at. */
  lemma {:induction false} ReplayIsHead(t: Tables, run: RunKey)
    requires Valid(t) && run in t.heads
    ensures Replay(t.log, run).None? <==> t.heads[run].deletedAt.Some?
    ensures Replay(t.log, run).Some? ==> Replay(t.log, run).value == (t.heads[run].pointer.segment, t.heads[run].pointer.row)
    ensures run in t.runLocators && t.runLocators[run] == t.heads[run].pointer
    ensures run in t.traceLocators && t.traceLocators[run] == t.heads[run].pointer
  {
    assert Agrees(t, run);
    var f :| ShowsLatest(t, run, f);
    hide Agrees, Replay, Latest;
    LatestIsLast(t, run, f);
  }

  lemma {:induction false} EventLeqIsTotal()
    ensures Ordering.TotalPreorder(EventLeq)
  {
  }

  lemma {:induction false} LatestIsLast(t: Tables, run: RunKey, f: Event)
    requires (forall a, b :: a in t.log && b in t.log && a.id == b.id ==> a == b) && Latest(t.log, run, f)
    ensures Replay(t.log, run) == if f.tombstone then None else Some((f.segment, f.row))
  {
    hide Ordering.TotalPreorder, RunEvents, Ordering.SortBy;
    var events := RunEvents(t.log, run);
    var sorted := Ordering.SortBy(events, EventLeq);
    RunEventsSpec(t.log, run);
    EventLeqIsTotal();
    Ordering.SortByCorrect(events, EventLeq);
    assert f in multiset(events);
    assert f in sorted;
    var last := sorted[|sorted| - 1];
    assert last in multiset(events);
    assert EventLeq(f, last) && EventLeq(last, f);
  }

  // ---- whole runs ----

  datatype Action = Arrive(event: Event) | Remove(run: RunKey, at: int)

  function NextId(log: seq<Event>): nat {
    if log == [] then 1
    else
      var rest := NextId(log[1..]);
      if log[0].id < rest then rest else log[0].id + 1
  }

  lemma {:induction false} NextIdFresh(log: seq<Event>)
    ensures forall e :: e in log ==> e.id < NextId(log)
  {
    if log != [] {
      NextIdFresh(log[1..]);
      assert log == [log[0]] + log[1..];
    }
  }

  function Apply(t: Tables, a: Action): Tables {
    match a
    case Arrive(e) => if Unused(t.log, e.id) && !e.tombstone then Ingest(t, e) else t
    case Remove(run, at) => Delete(t, run, at, NextId(t.log))
  }

  const Empty := Tables([], map[], map[], map[])

  function After(actions: seq<Action>): Tables {
    if actions == [] then Empty else Apply(After(actions[..|actions| - 1]), actions[|actions| - 1])
  }

  /** Every delete of the history was dated as `Dated` asks at its moment. */
  predicate DatedHistory(actions: seq<Action>) {
    actions == [] || (
      var front := actions[..|actions| - 1];
      var last := actions[|actions| - 1];
      && DatedHistory(front)
      && (last.Remove? && Deletable(After(front), last.run) ==> Dated(After(front), last.run, last.at)))
  }

  lemma {:induction false} HistoriesAgree(actions: seq<Action>)
    requires DatedHistory(actions)
    ensures Valid(After(actions))
  {
    if actions != [] {
      var front := actions[..|actions| - 1];
      HistoriesAgree(front);
      var t := After(front);
      NextIdFresh(t.log);
      match actions[|actions| - 1]
      case Arrive(e) =>
        if Unused(t.log, e.id) && !e.tombstone {
          IngestKeepsAgreement(t, e);
        }
      case Remove(run, at) =>
        if Deletable(t, run) {
          DatedDeleteKeepsAgreement(t, run, at, NextId(t.log));
        }
    } else {
      forall run
        ensures Agrees(Empty, run)
      {
        assert !Mentions(Empty.log, run);
      }
    }
  }

  /** Two deletes of one run at time 5 around a re-ingest at time 5: no delete predates its head, yet the head says deleted while the log replays to a row. */
  lemma {:induction false} SecondDeleteAtSameTimeDisagrees()
    ensures var first := Event(1, "r", false, 5, 0, 0, "a");
      var again := Event(3, "r", false, 5, 1, 0, "b");
      var t := After([Arrive(first), Remove("r", 5), Arrive(again), Remove("r", 5)]);
      && "r" in t.heads && t.heads["r"].deletedAt.Some?
      && Replay(t.log, "r") == Some((1, 0))
  {
    var first := Event(1, "r", false, 5, 0, 0, "a");
    var again := Event(3, "r", false, 5, 1, 0, "b");
    var tomb := Event(2, "r", true, 5, 0, 0, "");
    var a1, a2, a3, a4 := Arrive(first), Remove("r", 5), Arrive(again), Remove("r", 5);
    assert [a1, a2, a3, a4][..3] == [a1, a2, a3];
    assert [a1, a2, a3][..2] == [a1, a2] && [a1, a2][..1] == [a1] && [a1][..0] == [];
    assert After([a1]) == Ingest(Empty, first);
    assert After([a1]).log == [first];
    assert NextId([first]) == 2;
    assert After([a1, a2]) == Delete(After([a1]), "r", 5, 2);
    assert FindTombstone([first], "r", 5) == None by {
      assert [first][1..] == [];
    }
    assert After([a1, a2]).log == [first, tomb];
    assert After([a1, a2, a3]) == Ingest(After([a1, a2]), again);
    var log := [first, tomb, again];
    assert After([a1, a2, a3]).log == log;
    assert FindTombstone(log, "r", 5) == Some(2) by {
      assert log[1..] == [tomb, again];
    }
    var t := After([a1, a2, a3, a4]);
    assert t.log == log;
    ThreeEventsReplay(first, tomb, again);
  }

  /** Three events of one run at one time, in the order of their ids, replay to the last. */
  lemma {:induction false} ThreeEventsReplay(a: Event, b: Event, c: Event)
    requires a.run == b.run == c.run && a.time == b.time == c.time && a.id < b.id < c.id && !c.tombstone
    ensures Replay([a, b, c], a.run) == Some((c.segment, c.row))
  {
    var log := [a, b, c];
    assert RunEvents(log, a.run) == log by {
      assert log[1..] == [b, c] && [b, c][1..] == [c] && [c][1..] == [];
      assert RunEvents([c], a.run) == [c];
      assert RunEvents([b, c], a.run) == [b, c];
    }
    assert Ordering.SortBy(log, EventLeq) == log by {
      assert log[1..] == [b, c] && [b, c][1..] == [c] && [c][1..] == [];
      assert Ordering.SortBy([c], EventLeq) == [c];
      assert Ordering.SortBy([b, c], EventLeq) == [b, c];
    }
    hide RunEvents, Ordering.SortBy;
    assert log == [a, b] + [c];
  }

  // ---- the tables as the transactions update them ----

  class RunTables {
    var log: seq<Event>
    var heads: map<RunKey, Head>
    var runLocators: map<RunKey, Pointer>
    var traceLocators: map<RunKey, Pointer>
    var nextId: nat

    constructor ()
      ensures Now() == Empty && nextId == 1
    {
      log, heads, runLocators, traceLocators, nextId := [], map[], map[], map[], 1;
    }

    ghost function Now(): Tables
      reads this
    {
      Tables(log, heads, runLocators, traceLocators)
    }

    ghost predicate Consistent()
      reads this
    {
      Valid(Now()) && forall e :: e in log ==> e.id < nextId
    }

    /** The three guarded upserts for one inserted event. */
    method Upsert(e: Event)
      modifies this
      ensures Now() == Ingest(old(Now()), e) && nextId == old(nextId)
    {
      log := log + [e];
      if e.run !in heads || NotNewer(heads[e.run].pointer, e) {
        heads := heads[e.run := Head(PointerOf(e), None)];
      }
      if e.run !in runLocators || NotNewer(runLocators[e.run], e) {
        runLocators := runLocators[e.run := PointerOf(e)];
      }
      if e.run !in traceLocators || NotNewer(traceLocators[e.run], e) {
        traceLocators := traceLocators[e.run := PointerOf(e)];
      }
    }

    /**
     `persist_metadata`: the rows of one segment in order; the first key already logged makes the caller
     roll the whole transaction back.
     */
    method PersistMetadata(segment: nat, records: seq<Event>) returns (inserted: bool)
      requires Consistent()
      requires forall i :: 0 <= i < |records| ==> !records[i].tombstone
      modifies this
      ensures Consistent()
      ensures !inserted ==> Now() == old(Now())
      // refused exactly when a record's key is that of a logged event or of an earlier record
      ensures !inserted <==> exists i :: 0 <= i < |records| && Conflicts(old(log), records, i)
      // each record logged in order, with the next id, the segment and its row
      ensures inserted ==> |log| == |old(log)| + |records| && log[..|old(log)|] == old(log)
      ensures inserted ==> forall i :: 0 <= i < |records| ==>
        log[|old(log)| + i] == records[i].(id := old(nextId) + i, segment := segment, row := i)
    {
      hide Valid, Ingest, Conflicts, KeyLogged;
      var savedLog, savedHeads, savedRuns, savedTraces := log, heads, runLocators, traceLocators;
      var row := 0;
      while row < |records|
        invariant 0 <= row <= |records|
        invariant Consistent()
        invariant nextId == old(nextId) + row
        invariant log == old(log) + Stamped(records, segment, old(nextId))[..row]
        invariant forall i :: 0 <= i < row ==> !Conflicts(old(log), records, i)
      {
        if KeyLogged(log, records[row].key) {
          KeyCameFrom(old(log), records, segment, old(nextId), row);
          log, heads, runLocators, traceLocators := savedLog, savedHeads, savedRuns, savedTraces;
          return false;
        }
        KeyIsNew(old(log), records, segment, old(nextId), row);
        assert Stamped(records, segment, old(nextId))[..row + 1]
            == Stamped(records, segment, old(nextId))[..row] + [Stamped(records, segment, old(nextId))[row]];
        var e := records[row].(id := nextId, segment := segment, row := row);
        IngestKeepsAgreement(Now(), e);
        IngestLogs(Now(), e);
        Upsert(e);
        nextId := nextId + 1;
        row := row + 1;
      }
      return true;
    }

    /** `delete_run_in_tx`. */
    method DeleteRun(run: RunKey, at: int) returns (deleted: bool)
      requires Consistent()
      modifies this
      ensures deleted <==> run in old(heads) && old(heads)[run].deletedAt.None?
      // the tombstone is the event of that time if there is one, else a new one; rows keep their place
      ensures deleted ==> run in heads && heads[run].deletedAt == Some(at) && heads[run].pointer.tombstone
      ensures deleted ==> heads[run].pointer.time == at && TombstoneLogged(log, run, at, heads[run].pointer.eventId)
      ensures deleted ==> heads[run].pointer.segment == old(heads)[run].pointer.segment
      ensures deleted ==> heads[run].pointer.row == old(heads)[run].pointer.row
      ensures forall r :: r != run ==> (r in heads <==> r in old(heads)) && (r in heads ==> heads[r] == old(heads)[r])
      ensures !deleted ==> Now() == old(Now())
      ensures Now() == Delete(old(Now()), run, at, old(nextId))
      ensures deleted ==> (Consistent() <==> Dated(old(Now()), run, at))
    {
      hide Valid, Dated, FindTombstone;
      if run !in heads || heads[run].deletedAt.Some? {
        return false;
      }
      DeleteKeepsAgreementIff(Now(), run, at, nextId);
      var head := heads[run];
      heads := heads[run := head.(deletedAt := Some(at))];
      var known := FindTombstone(log, run, at);
      var id := nextId;
      if known.Some? {
        id := known.value;
      } else {
        log := log + [Event(id, run, true, at, head.pointer.segment, head.pointer.row, "")];
        nextId := nextId + 1;
      }
      heads := heads[run := Head(head.pointer.(tombstone := true, time := at, eventId := id), heads[run].deletedAt)];
      assert heads == old(heads)[run := Head(head.pointer.(tombstone := true, time := at, eventId := id), Some(at))];
      if run in runLocators {
        runLocators := runLocators[run := runLocators[run].(tombstone := true, time := at, eventId := id)];
      }
      if run in traceLocators {
        traceLocators := traceLocators[run := traceLocators[run].(tombstone := true, time := at, eventId := id)];
      }
      assert Now() == Delete(old(Now()), run, at, old(nextId));
      TombstoneFound(old(log), run, at, old(nextId), head.pointer);
      return true;
    }
  }

  lemma {:induction false} IngestLogs(t: Tables, e: Event)
    ensures Ingest(t, e).log == t.log + [e]
  {
  }

  /** The run's tombstone of that time and number. */
  ghost predicate TombstoneLogged(log: seq<Event>, run: RunKey, at: int, id: nat) {
    exists e :: e in log && e.tombstone && e.run == run && e.time == at && e.id == id
  }

  lemma {:induction false} FoundTombstone(log: seq<Event>, run: RunKey, at: int)
    ensures FindTombstone(log, run, at).Some? ==> TombstoneLogged(log, run, at, FindTombstone(log, run, at).value)
  {
    if log != [] && !SameTombstone(log[0], run, at) {
      FoundTombstone(log[1..], run, at);
    }
  }

  lemma {:induction false} TombstoneFound(log: seq<Event>, run: RunKey, at: int, freshId: nat, pointer: Pointer)
    ensures var known := FindTombstone(log, run, at);
      if known.Some? then TombstoneLogged(log, run, at, known.value)
      else TombstoneLogged(log + [Event(freshId, run, true, at, pointer.segment, pointer.row, "")], run, at, freshId)
  {
    FoundTombstone(log, run, at);
    hide FindTombstone;
    var e := Event(freshId, run, true, at, pointer.segment, pointer.row, "");
    assert e in log + [e];
  }

  /** A key that is not in the log so far is that of no earlier record. */
  lemma {:induction false} KeyIsNew(before: seq<Event>, records: seq<Event>, segment: nat, firstId: nat, row: nat)
    requires row < |records| && forall i :: 0 <= i < |records| ==> !records[i].tombstone
    requires !KeyLogged(before + Stamped(records, segment, firstId)[..row], records[row].key)
    ensures !Conflicts(before, records, row)
  {
    var log := before + Stamped(records, segment, firstId)[..row];
    assert forall i :: 0 <= i < |before| ==> log[i] == before[i];
    forall j | 0 <= j < row
      ensures exists k :: 0 <= k < |log| && log[k].key == records[j].key && !log[k].tombstone
    {
      assert log[|before| + j] == Stamped(records, segment, firstId)[j];
    }
  }

  predicate KeyLogged(log: seq<Event>, key: string) {
    exists i :: 0 <= i < |log| && log[i].key == key && !log[i].tombstone
  }

  /** The key of record `i` is logged already or repeats an earlier key of the same segment. */
  ghost predicate Conflicts(log: seq<Event>, records: seq<Event>, i: nat)
    requires i < |records|
  {
    KeyLogged(log, records[i].key) || exists j :: 0 <= j < i && records[j].key == records[i].key
  }

  function Stamped(records: seq<Event>, segment: nat, firstId: nat): seq<Event> {
    seq(|records|, i requires 0 <= i < |records| => records[i].(id := firstId + i, segment := segment, row := i))
  }

  lemma {:induction false} KeyCameFrom(before: seq<Event>, records: seq<Event>, segment: nat, firstId: nat, row: nat)
    requires row < |records|
    requires KeyLogged(before + Stamped(records, segment, firstId)[..row], records[row].key)
    ensures Conflicts(before, records, row)
  {
    var log := before + Stamped(records, segment, firstId)[..row];
    var i :| 0 <= i < |log| && log[i].key == records[row].key && !log[i].tombstone;
    if i >= |before| {
      assert log[i] == Stamped(records, segment, firstId)[i - |before|];
      assert records[i - |before|].key == records[row].key;
    }
  }
}
