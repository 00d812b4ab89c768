/**
 The in-memory flush buffer of the ingestor.  Ingests enqueue records and a waiter per partition,
 any number of flush tasks take batches, persist them and settle them with success or failure.
 Every critical section under the lock is one atomic action.
 */
module FlushBuffer {
  import opened Wrappers
  import opened Sequences
  import PL = PersistLoop

  type Partition = int
  type WaiterId = int
  type TaskId = int

  type Record = PL.Record

  datatype Buffer = Buffer(records: seq<Record>, waiters: seq<WaiterId>, flushing: bool)

  datatype Batch = Batch(partition: Partition, remaining: seq<Record>, waiters: seq<WaiterId>)

  /** What an ingest is owed: its partition and the records it handed over. */
  datatype Claim = Claim(partition: Partition, records: seq<Record>)

  /**
   `buffers` and `tasks` are the program's state; the other fields are history: what was accepted per
   partition, what has left a batch as durable, which task holds a partition, and what waiters were told.
   */
  datatype State = State(
    buffers: map<Partition, Buffer>,
    tasks: map<TaskId, Batch>,
    durable: set<string>,
    nextWaiter: WaiterId,
    accepted: map<Partition, multiset<Record>>,
    settled: map<Partition, multiset<Record>>,
    holder: map<Partition, TaskId>,
    claims: map<WaiterId, Claim>,
    told: map<WaiterId, bool>)

  datatype Action =
    | Enqueue(partition: Partition, records: seq<Record>)
    | TakeBatch(task: TaskId, partition: Partition)
    | Persist(task: TaskId, committed: set<string>, rest: seq<Record>)
    | OtherWriter(committed: set<string>)
    | SettleOk(task: TaskId)
    | SettleErr(task: TaskId)

  const Initial := State(map[], map[], {}, 0, map[], map[], map[], map[], map[])

  function BufferAtKey(buffers: map<Partition, Buffer>, p: Partition): Buffer {
    if p in buffers then buffers[p] else Buffer([], [], false)
  }

  function BufferAt(s: State, p: Partition): Buffer {
    BufferAtKey(s.buffers, p)
  }

  function Count(m: map<Partition, multiset<Record>>, p: Partition): multiset<Record> {
    if p in m then m[p] else multiset{}
  }

  function Tell(told: map<WaiterId, bool>, waiters: seq<WaiterId>, ok: bool): map<WaiterId, bool> {
    told + map w | w in waiters :: ok
  }

  /** The idle, non-empty test of `flush`. */
  predicate Flushable(s: State, p: Partition) {
    p in s.buffers && !s.buffers[p].flushing && s.buffers[p].records != []
  }

  function EnqueueGroup(s: State, p: Partition, records: seq<Record>): State {
    var buffer := BufferAt(s, p);
    s.(buffers := s.buffers[p := buffer.(records := buffer.records + records, waiters := buffer.waiters + [s.nextWaiter])],
       nextWaiter := s.nextWaiter + 1,
       accepted := s.accepted[p := Count(s.accepted, p) + multiset(records)],
       claims := s.claims[s.nextWaiter := Claim(p, records)])
  }

  function Take(s: State, t: TaskId, p: Partition): State
    requires p in s.buffers
  {
    var buffer := s.buffers[p];
    s.(buffers := s.buffers[p := Buffer([], [], true)],
       tasks := s.tasks[t := Batch(p, buffer.records, buffer.waiters)],
       holder := s.holder[p := t])
  }

  /** What is left of a batch is in its order and may lack records, but only of keys that are in the log. */
  ghost predicate LeavesOnlyLogged(remaining: seq<Record>, rest: seq<Record>, durable: set<string>) {
    && KeepsOrder(rest, remaining)
    && multiset(rest) <= multiset(remaining)
    && forall r :: r in multiset(remaining) - multiset(rest) ==> r.key in durable
  }

  /**
   Part of a batch becomes durable and leaves it: what the task knows to be in the log,
   by its own commit or by looking.  A record may be durable without the task knowing.
   */
  function PersistSome(s: State, t: TaskId, committed: set<string>, rest: seq<Record>): State
    requires t in s.tasks
  {
    var batch := s.tasks[t];
    s.(durable := s.durable + committed,
       tasks := s.tasks[t := batch.(remaining := rest)],
       settled := s.settled[batch.partition := Count(s.settled, batch.partition) + (multiset(batch.remaining) - multiset(rest))])
  }

  function FinishOk(s: State, t: TaskId): State
    requires t in s.tasks
  {
    var batch := s.tasks[t];
    var p := batch.partition;
    var buffer := BufferAt(s, p).(flushing := false);
    s.(buffers := if buffer.records == [] && buffer.waiters == [] then s.buffers - {p} else s.buffers[p := buffer],
       tasks := s.tasks - {t},
       holder := s.holder - {p},
       told := Tell(s.told, batch.waiters, true))
  }

  /** Unwritten records go back in front of what arrived meanwhile; everyone waiting is told. */
  function FinishErr(s: State, t: TaskId): State
    requires t in s.tasks
  {
    var batch := s.tasks[t];
    var p := batch.partition;
    var buffer := BufferAt(s, p);
    s.(buffers := s.buffers[p := Buffer(batch.remaining + buffer.records, [], false)],
       tasks := s.tasks - {t},
       holder := s.holder - {p},
       told := Tell(s.told, batch.waiters + buffer.waiters, false))
  }

  ghost function Step(s: State, a: Action): State {
    match a
    case Enqueue(p, records) => if records != [] then EnqueueGroup(s, p, records) else s
    case TakeBatch(t, p) => if Flushable(s, p) && t !in s.tasks then Take(s, t, p) else s
    case Persist(t, committed, rest) =>
      if t in s.tasks && LeavesOnlyLogged(s.tasks[t].remaining, rest, s.durable + committed) then PersistSome(s, t, committed, rest) else s
    case OtherWriter(committed) => s.(durable := s.durable + committed)
    case SettleOk(t) => if t in s.tasks && s.tasks[t].remaining == [] then FinishOk(s, t) else s
    case SettleErr(t) => if t in s.tasks then FinishErr(s, t) else s
  }

  ghost function Run(actions: seq<Action>): State {
    if actions == [] then Initial else Step(Run(actions[..|actions| - 1]), actions[|actions| - 1])
  }

  // ---- the invariant ----

  /** Everything the state says about one partition. */
  datatype View = View(
    buffer: Buffer, inFlight: seq<Record>, inFlightWaiters: seq<WaiterId>,
    accepted: multiset<Record>, settled: multiset<Record>)

  function Look(s: State, p: Partition): View {
    var batch := if p in s.holder && s.holder[p] in s.tasks then s.tasks[s.holder[p]] else Batch(p, [], []);
    View(BufferAt(s, p), batch.remaining, batch.waiters, Count(s.accepted, p), Count(s.settled, p))
  }

  /** A partition is flushing exactly while one task holds it, and tasks hold different partitions. */
  ghost predicate OneBatchPerPartition(s: State) {
    && (forall p :: BufferAt(s, p).flushing <==> p in s.holder)
    && (forall p :: p in s.holder ==> s.holder[p] in s.tasks && s.tasks[s.holder[p]].partition == p)
    && (forall t :: t in s.tasks ==> s.tasks[t].partition in s.holder && s.holder[s.tasks[t].partition] == t)
  }

  /** Accepted records are pending, in flight or settled, each exactly once; settled ones are durable. */
  ghost predicate Conserved(v: View, durable: set<string>) {
    && v.accepted == multiset(v.buffer.records) + multiset(v.inFlight) + v.settled
    && forall r :: r in v.settled ==> r.key in durable
  }

  ghost predicate Waiting(w: WaiterId, p: Partition, claims: map<WaiterId, Claim>, told: map<WaiterId, bool>) {
    w in claims && claims[w].partition == p && w !in told
  }

  ghost predicate HeldOrDurable(claim: Claim, held: seq<Record>, durable: set<string>) {
    forall i :: 0 <= i < |claim.records| ==> claim.records[i] in held || claim.records[i].key in durable
  }

  /** The records of a waiter in the buffer are all in the buffer; those of a waiter in flight are in flight or durable. */
  ghost predicate ViewOk(v: View, p: Partition, durable: set<string>, claims: map<WaiterId, Claim>, told: map<WaiterId, bool>) {
    && Conserved(v, durable)
    && (forall w :: w in v.buffer.waiters ==>
          Waiting(w, p, claims, told) && HeldOrDurable(claims[w], v.buffer.records, {}))
    && (forall w :: w in v.inFlightWaiters ==>
          Waiting(w, p, claims, told) && w !in v.buffer.waiters && HeldOrDurable(claims[w], v.inFlight, durable))
  }

  /** No waiter is lost, and success means durable. */
  ghost predicate WaiterOk(w: WaiterId, s: State) {
    w in s.claims ==>
      var v := Look(s, s.claims[w].partition);
      && s.claims[w].records != []
      && (w in s.told && s.told[w] ==> HeldOrDurable(s.claims[w], [], s.durable))
      && (w in s.told || w in v.buffer.waiters || w in v.inFlightWaiters)
  }

  ghost predicate IdsOk(s: State) {
    && (forall w :: w in s.claims <==> 0 <= w < s.nextWaiter)
    && s.nextWaiter >= 0
    && (forall w :: w in s.told ==> w in s.claims)
  }

  ghost predicate ViewsOk(s: State) {
    forall p :: ViewOk(Look(s, p), p, s.durable, s.claims, s.told)
  }

  ghost predicate Inv(s: State) {
    && OneBatchPerPartition(s)
    && ViewsOk(s)
    && IdsOk(s)
    && (forall w :: WaiterOk(w, s))
  }

  /** One partition changes; elsewhere durability and claims only grow and nobody waiting is told. */
  ghost predicate ChangesOnly(s: State, t: State, p: Partition) {
    && (forall q :: q != p ==> Look(t, q) == Look(s, q))
    && s.durable <= t.durable
    && (forall w :: w in s.claims ==> w in t.claims && t.claims[w] == s.claims[w])
    && (forall w :: w in s.told ==> w in t.told && t.told[w] == s.told[w])
    && (forall w :: w in t.told && w !in s.told ==> w in s.claims && s.claims[w].partition == p)
  }

  lemma {:induction false} OthersStayOk(s: State, t: State, p: Partition)
    requires ViewsOk(s) && ChangesOnly(s, t, p)
    requires ViewOk(Look(t, p), p, t.durable, t.claims, t.told)
    ensures ViewsOk(t)
  {
    hide Look;
    forall q | q != p
      ensures ViewOk(Look(t, q), q, t.durable, t.claims, t.told)
    {
      assert ViewOk(Look(s, q), q, s.durable, s.claims, s.told);
    }
  }

  lemma {:induction false} WaitersStayOk(s: State, t: State, p: Partition)
    requires (forall w :: WaiterOk(w, s)) && ChangesOnly(s, t, p)
    requires forall w :: w in t.claims && w !in s.claims ==>
      t.claims[w].partition == p && t.claims[w].records != [] && w in Look(t, p).buffer.waiters && w !in t.told
    requires forall w :: w in Look(s, p).buffer.waiters || w in Look(s, p).inFlightWaiters ==>
      w in t.told || w in Look(t, p).buffer.waiters || w in Look(t, p).inFlightWaiters
    requires forall w :: w in t.told && w !in s.told && t.told[w] && w in s.claims ==> HeldOrDurable(s.claims[w], [], t.durable)
    ensures forall w :: WaiterOk(w, t)
  {
    hide Look;
    forall w
      ensures WaiterOk(w, t)
    {
      assert WaiterOk(w, s);
    }
  }

  /** The new view of the one changed partition is sound and nobody is lost there: the whole state is. */
  lemma {:induction false} ViewStepKeepsInv(s: State, t: State, p: Partition)
    requires Inv(s) && OneBatchPerPartition(t) && IdsOk(t) && ChangesOnly(s, t, p)
    requires ViewOk(Look(t, p), p, t.durable, t.claims, t.told)
    requires forall w :: w in t.claims && w !in s.claims ==>
      t.claims[w].partition == p && t.claims[w].records != [] && w in Look(t, p).buffer.waiters && w !in t.told
    requires forall w :: w in Look(s, p).buffer.waiters || w in Look(s, p).inFlightWaiters ==>
      w in t.told || w in Look(t, p).buffer.waiters || w in Look(t, p).inFlightWaiters
    requires forall w :: w in t.told && w !in s.told && t.told[w] && w in s.claims ==> HeldOrDurable(s.claims[w], [], t.durable)
    ensures Inv(t)
  {
    hide OneBatchPerPartition, Look, ViewOk, ViewsOk, WaiterOk, ChangesOnly, HeldOrDurable;
    OthersStayOk(s, t, p);
    WaitersStayOk(s, t, p);
  }

  lemma {:induction false} ViewIsOk(s: State, p: Partition)
    requires Inv(s)
    ensures ViewOk(Look(s, p), p, s.durable, s.claims, s.told) && OneBatchPerPartition(s) && IdsOk(s)
  {
    hide Look, ViewOk, OneBatchPerPartition, IdsOk, WaiterOk;
  }

  /** What an enqueue changes, partition by partition. */
  lemma {:induction false} EnqueueParts(s: State, p: Partition, records: seq<Record>)
    ensures var t := EnqueueGroup(s, p, records);
      && (forall q :: q != p ==> BufferAt(t, q) == BufferAt(s, q) && Count(t.accepted, q) == Count(s.accepted, q))
      && BufferAt(t, p) == BufferAt(s, p).(records := BufferAt(s, p).records + records, waiters := BufferAt(s, p).waiters + [s.nextWaiter])
      && Count(t.accepted, p) == Count(s.accepted, p) + multiset(records)
      && t.tasks == s.tasks && t.holder == s.holder && t.settled == s.settled
      && t.told == s.told && t.nextWaiter == s.nextWaiter + 1 && t.buffers.Keys == s.buffers.Keys + {p}
  {
  }

  lemma {:induction false} EnqueueLook(s: State, p: Partition, records: seq<Record>)
    requires OneBatchPerPartition(s)
    ensures var t := EnqueueGroup(s, p, records);
      var v := Look(s, p);
      && (forall q :: q != p ==> Look(t, q) == Look(s, q))
      && Look(t, p) == v.(buffer := v.buffer.(records := v.buffer.records + records, waiters := v.buffer.waiters + [s.nextWaiter]),
                          accepted := v.accepted + multiset(records))
      && OneBatchPerPartition(t)
  {
    EnqueueParts(s, p, records);
    EnqueueHolders(s, p, records);
    hide OneBatchPerPartition, EnqueueGroup, BufferAt, Count;
  }

  lemma {:induction false} EnqueueHolders(s: State, p: Partition, records: seq<Record>)
    requires OneBatchPerPartition(s)
    ensures OneBatchPerPartition(EnqueueGroup(s, p, records))
  {
    EnqueueParts(s, p, records);
    hide BufferAt, Count, EnqueueGroup;
    var t := EnqueueGroup(s, p, records);
    forall q
      ensures BufferAt(t, q).flushing == BufferAt(s, q).flushing
    {
    }
  }

  lemma {:induction false} EnqueueKeepsInv(s: State, p: Partition, records: seq<Record>)
    requires Inv(s) && records != []
    ensures Inv(EnqueueGroup(s, p, records))
  {
    hide OneBatchPerPartition, Look, Inv;
    var t := EnqueueGroup(s, p, records);
    ViewIsOk(s, p);
    EnqueueLook(s, p, records);
    EnqueueView(Look(s, p), Look(t, p), p, records, s, t);
    ViewStepKeepsInv(s, t, p);
  }

  lemma {:induction false} EnqueueView(v: View, u: View, p: Partition, records: seq<Record>, s: State, t: State)
    requires ViewOk(v, p, s.durable, s.claims, s.told) && IdsOk(s)
    requires t.durable == s.durable && t.told == s.told && t.claims == s.claims[s.nextWaiter := Claim(p, records)]
    requires u == v.(buffer := v.buffer.(records := v.buffer.records + records, waiters := v.buffer.waiters + [s.nextWaiter]),
                     accepted := v.accepted + multiset(records))
    ensures ViewOk(u, p, t.durable, t.claims, t.told)
  {
    assert multiset(u.buffer.records) == multiset(v.buffer.records) + multiset(records);
    forall w | w in u.buffer.waiters
      ensures Waiting(w, p, t.claims, t.told) && HeldOrDurable(t.claims[w], u.buffer.records, {})
    {
      assert w == s.nextWaiter || w in v.buffer.waiters;
    }
  }

  lemma {:induction false} TakeLook(s: State, t: TaskId, p: Partition)
    requires OneBatchPerPartition(s) && Flushable(s, p) && t !in s.tasks
    ensures var after := Take(s, t, p);
      var v := Look(s, p);
      && (forall q :: q != p ==> Look(after, q) == Look(s, q))
      && v.inFlight == [] && v.inFlightWaiters == []
      && Look(after, p) == View(Buffer([], [], true), v.buffer.records, v.buffer.waiters, v.accepted, v.settled)
      && OneBatchPerPartition(after)
  {
    var after := Take(s, t, p);
    assert BufferAt(s, p) == s.buffers[p] && p !in s.holder;
    forall q | q != p
      ensures Look(after, q) == Look(s, q)
    {
    }
    TakeHolders(s, t, p);
    hide OneBatchPerPartition;
  }

  lemma {:induction false} TakeHolders(s: State, t: TaskId, p: Partition)
    requires OneBatchPerPartition(s) && Flushable(s, p) && t !in s.tasks
    ensures OneBatchPerPartition(Take(s, t, p))
  {
    var after := Take(s, t, p);
    assert BufferAt(s, p) == s.buffers[p] && p !in s.holder;
    forall q
      ensures BufferAt(after, q) == if q == p then Buffer([], [], true) else BufferAt(s, q)
      ensures BufferAt(after, q).flushing <==> q in after.holder
    {
    }
    hide BufferAt;
    forall u | u in after.tasks
      ensures after.tasks[u].partition in after.holder && after.holder[after.tasks[u].partition] == u
    {
    }
  }

  lemma {:induction false} TakeKeepsInv(s: State, t: TaskId, p: Partition)
    requires Inv(s) && Flushable(s, p) && t !in s.tasks
    ensures Inv(Take(s, t, p))
  {
    hide OneBatchPerPartition, Look, Inv;
    ViewIsOk(s, p);
    TakeLook(s, t, p);
    ViewStepKeepsInv(s, Take(s, t, p), p);
  }

  lemma {:induction false} PersistLook(s: State, t: TaskId, committed: set<string>, rest: seq<Record>)
    requires OneBatchPerPartition(s) && t in s.tasks
    ensures var after := PersistSome(s, t, committed, rest);
      var p := s.tasks[t].partition;
      var v := Look(s, p);
      && (forall q :: q != p ==> Look(after, q) == Look(s, q))
      && v.inFlight == s.tasks[t].remaining
      && Look(after, p) == v.(inFlight := rest, settled := v.settled + (multiset(v.inFlight) - multiset(rest)))
      && OneBatchPerPartition(after)
  {
    var after := PersistSome(s, t, committed, rest);
    SameHolders(s, after);
    hide OneBatchPerPartition, BufferAt, Count;
    CountAfter(s, after, s.tasks[t].partition);
  }

  lemma {:induction false} CountAfter(s: State, t: State, p: Partition)
    requires t.accepted == s.accepted && t.settled.Keys == s.settled.Keys + {p}
    requires forall q :: q in s.settled && q != p ==> t.settled[q] == s.settled[q]
    ensures forall q :: Count(t.accepted, q) == Count(s.accepted, q)
    ensures forall q :: q != p ==> Count(t.settled, q) == Count(s.settled, q)
    ensures Count(t.settled, p) == t.settled[p]
  {
  }

  lemma {:induction false} SameHolders(s: State, t: State)
    requires OneBatchPerPartition(s)
    requires t.buffers == s.buffers && t.holder == s.holder && t.tasks.Keys == s.tasks.Keys
    requires forall u :: u in s.tasks ==> t.tasks[u].partition == s.tasks[u].partition
    ensures OneBatchPerPartition(t)
    ensures forall q :: BufferAt(t, q) == BufferAt(s, q)
  {
    forall q
      ensures BufferAt(t, q) == BufferAt(s, q)
      ensures BufferAt(t, q).flushing <==> q in t.holder
    {
      assert BufferAt(s, q).flushing <==> q in s.holder;
    }
    hide BufferAt;
    forall q | q in t.holder
      ensures t.holder[q] in t.tasks && t.tasks[t.holder[q]].partition == q
    {
      var u := s.holder[q];
      assert u in s.tasks && u in t.tasks.Keys && t.tasks[u].partition == s.tasks[u].partition;
    }
    forall u | u in t.tasks
      ensures t.tasks[u].partition in t.holder && t.holder[t.tasks[u].partition] == u
    {
      assert u in s.tasks.Keys;
    }
  }

  lemma {:induction false} StillHeld(claim: Claim, held: seq<Record>, rest: seq<Record>, before: set<string>, after: set<string>)
    requires HeldOrDurable(claim, held, before) && before <= after && LeavesOnlyLogged(held, rest, after)
    ensures HeldOrDurable(claim, rest, after)
  {
    forall i | 0 <= i < |claim.records|
      ensures claim.records[i] in rest || claim.records[i].key in after
    {
      var r := claim.records[i];
      if r in held && r !in rest {
        assert r in multiset(held) && r in multiset(held) - multiset(rest);
      }
    }
  }

  lemma {:induction false} LogKeepsOrder(remaining: seq<Record>, rest: seq<Record>, durable: set<string>)
    requires LeavesOnlyLogged(remaining, rest, durable)
    ensures KeepsOrder(rest, remaining)
  {
    hide KeepsOrder;
  }

  lemma {:induction false} PersistView(
    v: View, p: Partition, before: set<string>, after: set<string>, rest: seq<Record>, claims: map<WaiterId, Claim>, told: map<WaiterId, bool>)
    requires ViewOk(v, p, before, claims, told) && before <= after && LeavesOnlyLogged(v.inFlight, rest, after)
    ensures ViewOk(v.(inFlight := rest, settled := v.settled + (multiset(v.inFlight) - multiset(rest))), p, after, claims, told)
  {
    hide HeldOrDurable;
    forall w | w in v.inFlightWaiters
      ensures w in claims && HeldOrDurable(claims[w], rest, after)
    {
      StillHeld(claims[w], v.inFlight, rest, before, after);
    }
  }

  lemma {:induction false} PersistKeepsInv(s: State, t: TaskId, committed: set<string>, rest: seq<Record>)
    requires Inv(s) && t in s.tasks && LeavesOnlyLogged(s.tasks[t].remaining, rest, s.durable + committed)
    ensures Inv(PersistSome(s, t, committed, rest))
  {
    hide OneBatchPerPartition, Look, Inv, LeavesOnlyLogged;
    var p := s.tasks[t].partition;
    ViewIsOk(s, p);
    PersistLook(s, t, committed, rest);
    PersistView(Look(s, p), p, s.durable, s.durable + committed, rest, s.claims, s.told);
    hide ViewOk;
    ViewStepKeepsInv(s, PersistSome(s, t, committed, rest), p);
  }

  lemma {:induction false} OkLook(s: State, t: TaskId)
    requires OneBatchPerPartition(s) && t in s.tasks && s.tasks[t].remaining == []
    ensures var after := FinishOk(s, t);
      var p := s.tasks[t].partition;
      var v := Look(s, p);
      && (forall q :: q != p ==> Look(after, q) == Look(s, q))
      && v.inFlight == [] && v.inFlightWaiters == s.tasks[t].waiters
      && Look(after, p) == v.(buffer := v.buffer.(flushing := false), inFlightWaiters := [])
      && OneBatchPerPartition(after)
  {
    var after := FinishOk(s, t);
    var p := s.tasks[t].partition;
    assert s.holder[p] == t;
    forall q | q != p
      ensures Look(after, q) == Look(s, q) && BufferAt(after, q) == BufferAt(s, q)
    {
      assert q in s.holder ==> s.holder[q] != t;
    }
    assert !BufferAt(after, p).flushing;
  }

  lemma {:induction false} OkKeepsInv(s: State, t: TaskId)
    requires Inv(s) && t in s.tasks && s.tasks[t].remaining == []
    ensures Inv(FinishOk(s, t))
  {
    hide OneBatchPerPartition, Look, Inv;
    ViewIsOk(s, s.tasks[t].partition);
    OkLook(s, t);
    ViewStepKeepsInv(s, FinishOk(s, t), s.tasks[t].partition);
  }

  lemma {:induction false} ErrLook(s: State, t: TaskId)
    requires OneBatchPerPartition(s) && t in s.tasks
    ensures var after := FinishErr(s, t);
      var p := s.tasks[t].partition;
      var v := Look(s, p);
      && (forall q :: q != p ==> Look(after, q) == Look(s, q))
      && v.inFlightWaiters == s.tasks[t].waiters && v.buffer == BufferAt(s, p)
      && Look(after, p) == View(Buffer(v.inFlight + v.buffer.records, [], false), [], [], v.accepted, v.settled)
      && OneBatchPerPartition(after)
  {
    var after := FinishErr(s, t);
    var p := s.tasks[t].partition;
    assert s.holder[p] == t;
    forall q | q != p
      ensures Look(after, q) == Look(s, q) && BufferAt(after, q) == BufferAt(s, q)
    {
      assert q in s.holder ==> s.holder[q] != t;
    }
    assert !BufferAt(after, p).flushing;
  }

  lemma {:induction false} ErrKeepsInv(s: State, t: TaskId)
    requires Inv(s) && t in s.tasks
    ensures Inv(FinishErr(s, t))
  {
    hide OneBatchPerPartition, Look, Inv;
    var p := s.tasks[t].partition;
    ViewIsOk(s, p);
    ErrLook(s, t);
    ErrView(Look(s, p), p, s.durable, s.claims, s.told, FinishErr(s, t).told);
    hide ViewOk;
    ViewStepKeepsInv(s, FinishErr(s, t), p);
  }

  /** Putting the batch back in front of the buffer conserves its records, and nobody waits any more. */
  lemma {:induction false} ErrView(
    v: View, p: Partition, durable: set<string>, claims: map<WaiterId, Claim>, told: map<WaiterId, bool>, after: map<WaiterId, bool>)
    requires ViewOk(v, p, durable, claims, told)
    ensures ViewOk(View(Buffer(v.inFlight + v.buffer.records, [], false), [], [], v.accepted, v.settled), p, durable, claims, after)
    ensures forall w :: w in v.buffer.waiters || w in v.inFlightWaiters ==> Waiting(w, p, claims, told)
  {
    assert multiset(v.inFlight + v.buffer.records) == multiset(v.inFlight) + multiset(v.buffer.records);
    hide HeldOrDurable;
  }

  lemma {:induction false} OtherWriterLook(s: State, committed: set<string>)
    requires OneBatchPerPartition(s)
    ensures var t := s.(durable := s.durable + committed);
      (forall q :: Look(t, q) == Look(s, q)) && OneBatchPerPartition(t)
  {
    assert forall q :: BufferAt(s.(durable := s.durable + committed), q) == BufferAt(s, q);
  }

  lemma {:induction false} OtherWriterKeepsInv(s: State, committed: set<string>)
    requires Inv(s)
    ensures Inv(s.(durable := s.durable + committed))
  {
    hide OneBatchPerPartition, Look, Inv;
    ViewIsOk(s, 0);
    OtherWriterLook(s, committed);
    ViewStepKeepsInv(s, s.(durable := s.durable + committed), 0);
  }

  lemma {:induction false} StepKeepsInv(s: State, a: Action)
    requires Inv(s)
    ensures Inv(Step(s, a))
  {
    hide Inv, EnqueueGroup, Take, PersistSome, FinishOk, FinishErr;
    match a
    case Enqueue(p, records) => if records != [] { EnqueueKeepsInv(s, p, records); }
    case TakeBatch(t, p) => if Flushable(s, p) && t !in s.tasks { TakeKeepsInv(s, t, p); }
    case Persist(t, committed, rest) =>
      if t in s.tasks && LeavesOnlyLogged(s.tasks[t].remaining, rest, s.durable + committed) { PersistKeepsInv(s, t, committed, rest); }
    case OtherWriter(committed) => OtherWriterKeepsInv(s, committed);
    case SettleOk(t) => if t in s.tasks && s.tasks[t].remaining == [] { OkKeepsInv(s, t); }
    case SettleErr(t) => if t in s.tasks { ErrKeepsInv(s, t); }
  }

  lemma {:induction false} InitialOk()
    ensures Inv(Initial)
  {
  }

  lemma {:induction false} RunKeepsInv(actions: seq<Action>)
    ensures Inv(Run(actions))
  {
    hide Inv, Step;
    if actions == [] {
      InitialOk();
    } else {
      RunKeepsInv(actions[..|actions| - 1]);
      StepKeepsInv(Run(actions[..|actions| - 1]), actions[|actions| - 1]);
    }
  }

  /**
   Every accepted record is pending, in flight or settled, exactly once, at every moment of
   every run, and settled records are durable.  A pending one may be durable too, when a
   commit was not acknowledged or another writer logged its key.
   */
  lemma {:induction false} RecordsConserved(actions: seq<Action>, p: Partition)
    ensures var s := Run(actions);
      var v := Look(s, p);
      && v.accepted == multiset(v.buffer.records) + multiset(v.inFlight) + v.settled
      && forall r :: r in v.settled ==> r.key in s.durable
  {
    RunKeepsInv(actions);
    var s := Run(actions);
    assert ViewOk(Look(s, p), p, s.durable, s.claims, s.told);
  }

  /** What ingests handed over for a partition, in the order of their critical sections. */
  function Arrivals(actions: seq<Action>, p: Partition): seq<Record> {
    if actions == [] then []
    else
      var n := |actions| - 1;
      Arrivals(actions[..n], p)
      + match actions[n] case Enqueue(q, records) => (if q == p then records else []) case _ => []
  }

  function Queue(v: View): seq<Record> {
    v.inFlight + v.buffer.records
  }

  /** A step adds what arrives behind the queue, and otherwise only shortens it. */
  lemma {:induction false} StepQueue(s: State, a: Action, p: Partition)
    requires Inv(s)
    ensures var arrived := if a.Enqueue? && a.partition == p then a.records else [];
            && KeepsOrder(Queue(Look(Step(s, a), p)), Queue(Look(s, p)) + arrived)
            && Look(Step(s, a), p).accepted == Look(s, p).accepted + multiset(arrived)
  {
    hide OneBatchPerPartition, Look, Inv, ViewOk, KeepsOrder, LeavesOnlyLogged, EnqueueGroup, Take, PersistSome, FinishOk, FinishErr;
    ViewIsOk(s, p);
    var queue := Queue(Look(s, p));
    KeepsAll(queue);
    assert queue + [] == queue;
    match a
    case Enqueue(q, records) =>
      if records != [] {
        EnqueueLook(s, q, records);
        if q == p {
          KeepsAll(queue + records);
          ThreeParts(Look(s, p).inFlight, Look(s, p).buffer.records, records);
        }
      }
    case TakeBatch(t, q) =>
      if Flushable(s, q) && t !in s.tasks {
        TakeLook(s, t, q);
        if q == p {
          assert Queue(Look(Take(s, t, q), p)) == queue;
        }
      }
    case Persist(t, committed, rest) =>
      if t in s.tasks && LeavesOnlyLogged(s.tasks[t].remaining, rest, s.durable + committed) {
        PersistLook(s, t, committed, rest);
        LogKeepsOrder(s.tasks[t].remaining, rest, s.durable + committed);
        if s.tasks[t].partition == p {
          KeepsBefore(rest, s.tasks[t].remaining, Look(s, p).buffer.records);
        }
      }
    case OtherWriter(committed) => OtherWriterLook(s, committed);
    case SettleOk(t) => if t in s.tasks && s.tasks[t].remaining == [] { OkLook(s, t); }
    case SettleErr(t) =>
      if t in s.tasks {
        ErrLook(s, t);
        if s.tasks[t].partition == p {
          assert Queue(Look(FinishErr(s, t), p)) == queue;
        }
      }
  }

  /**
   At every moment of every run, what a partition still holds, in flight and behind it in the
   buffer, stands in the order it was handed over in, and everything handed over that is no
   longer held is in the log.
   */
  lemma {:induction false} ArrivalOrder(actions: seq<Action>, p: Partition)
    ensures var v := Look(Run(actions), p);
            var held := v.inFlight + v.buffer.records;
            && KeepsOrder(held, Arrivals(actions, p))
            && v.accepted == multiset(Arrivals(actions, p))
            && forall r :: r in multiset(Arrivals(actions, p)) - multiset(held) ==> r.key in Run(actions).durable
  {
    ArrivalQueue(actions, p);
    RecordsConserved(actions, p);
    hide *;
    var v := Look(Run(actions), p);
    assert multiset(v.inFlight + v.buffer.records) == multiset(v.inFlight) + multiset(v.buffer.records);
  }

  lemma {:induction false} NothingYet(p: Partition)
    ensures Look(Initial, p) == View(Buffer([], [], false), [], [], multiset{}, multiset{})
  {
  }

  lemma {:induction false} ArrivalQueue(actions: seq<Action>, p: Partition)
    ensures var v := Look(Run(actions), p);
            KeepsOrder(v.inFlight + v.buffer.records, Arrivals(actions, p)) && v.accepted == multiset(Arrivals(actions, p))
  {
    hide Inv, Step, Look, KeepsOrder;
    if actions == [] {
      NothingYet(p);
      var none: seq<Record> := [];
      KeepsAll(none);
      assert none + none == none;
    } else {
      var n := |actions| - 1;
      var before := Run(actions[..n]);
      RunKeepsInv(actions[..n]);
      ArrivalQueue(actions[..n], p);
      StepQueue(before, actions[n], p);
      var arrived := if actions[n].Enqueue? && actions[n].partition == p then actions[n].records else [];
      KeepsBefore(Queue(Look(before, p)), Arrivals(actions[..n], p), arrived);
      KeepsTwice(Queue(Look(Run(actions), p)), Queue(Look(before, p)) + arrived, Arrivals(actions, p));
    }
  }

  /** No two tasks ever hold batches of one partition. */
  lemma {:induction false} AtMostOneInFlight(actions: seq<Action>, a: TaskId, b: TaskId)
    requires a in Run(actions).tasks && b in Run(actions).tasks
    requires Run(actions).tasks[a].partition == Run(actions).tasks[b].partition
    ensures a == b
  {
    RunKeepsInv(actions);
  }

  /** Waiters never sit in an idle empty buffer: what they wait for is in it, so some flush will take it. */
  lemma {:induction false} WaitersNotStranded(actions: seq<Action>, p: Partition)
    requires p in Run(actions).buffers
    ensures var buffer := Run(actions).buffers[p];
      buffer.waiters != [] && !buffer.flushing ==> buffer.records != []
  {
    RunKeepsInv(actions);
    var s := Run(actions);
    var v := Look(s, p);
    if v.buffer.waiters != [] {
      var w := v.buffer.waiters[0];
      assert ViewOk(v, p, s.durable, s.claims, s.told) && w in v.buffer.waiters;
      assert WaiterOk(w, s);
      assert s.claims[w].records[0] in v.buffer.records;
    }
  }

  /** Success is only reported for durable records, no waiter is forgotten, and none is told while still waiting. */
  lemma {:induction false} ToldOkMeansDurable(actions: seq<Action>, w: WaiterId)
    requires w in Run(actions).claims
    ensures var s := Run(actions);
      var claim := s.claims[w];
      var v := Look(s, claim.partition);
      && (w in s.told && s.told[w] ==> forall i :: 0 <= i < |claim.records| ==> claim.records[i].key in s.durable)
      && (w in s.told <==> w !in v.buffer.waiters && w !in v.inFlightWaiters)
  {
    RunKeepsInv(actions);
    var s := Run(actions);
    var p := s.claims[w].partition;
    assert ViewOk(Look(s, p), p, s.durable, s.claims, s.told);
    assert WaiterOk(w, s);
  }

  // ---- the critical sections ----

  class Ingestor {
    var buffers: map<Partition, Buffer>
    var tasks: map<TaskId, Batch>
    var nextWaiter: WaiterId
    var told: map<WaiterId, bool>
    ghost var durable: set<string>
    ghost var accepted: map<Partition, multiset<Record>>
    ghost var settled: map<Partition, multiset<Record>>
    ghost var holder: map<Partition, TaskId>
    ghost var claims: map<WaiterId, Claim>

    constructor ()
      ensures Now() == Initial
    {
      buffers, tasks, nextWaiter, told := map[], map[], 0, map[];
      durable, accepted, settled, holder, claims := {}, map[], map[], map[], map[];
    }

    ghost function Now(): State
      reads this
    {
      State(buffers, tasks, durable, nextWaiter, accepted, settled, holder, claims, told)
    }

    /** `ingest_records`: one buffer entry and one waiter per partition group. */
    method EnqueueGroups(groups: seq<(Partition, seq<Record>)>) returns (waiters: seq<WaiterId>)
      requires forall i :: 0 <= i < |groups| ==> groups[i].1 != []
      modifies this
      ensures Now() == EnqueueAll(old(Now()), groups)
      ensures |waiters| == |groups|
      ensures AllEnqueued(old(Now()), Now(), groups)
      ensures forall i :: 0 <= i < |groups| ==>
        && waiters[i] == old(nextWaiter) + i
        && waiters[i] in claims && claims[waiters[i]] == Claim(groups[i].0, groups[i].1)
    {
      hide EnqueueAll, EnqueueGroup, Count, BufferAtKey, AllEnqueued;
      waiters := [];
      EnqueueNone(Now(), groups);
      for i := 0 to |groups|
        invariant Now() == EnqueueAll(old(Now()), groups[..i])
        invariant |waiters| == i && nextWaiter == old(nextWaiter) + i
        invariant forall j :: 0 <= j < i ==>
          waiters[j] == old(nextWaiter) + j && waiters[j] in claims && claims[waiters[j]] == Claim(groups[j].0, groups[j].1)
      {
        var (p, records) := groups[i];
        EnqueueOneMore(old(Now()), groups, i);
        var buffer := BufferAtKey(buffers, p);
        buffers := buffers[p := buffer.(records := buffer.records + records, waiters := buffer.waiters + [nextWaiter])];
        waiters := waiters + [nextWaiter];
        accepted := accepted[p := Count(accepted, p) + multiset(records)];
        claims := claims[nextWaiter := Claim(p, records)];
        nextWaiter := nextWaiter + 1;
      }
      assert groups[..|groups|] == groups;
      EnqueueAllMeans(old(Now()), groups);
    }

    /** The first critical section of `flush`: take the first idle, non-empty buffer. */
    method TakeNext(task: TaskId) returns (taken: Option<Partition>)
      requires task !in tasks
      modifies this
      ensures taken.Some? ==> Flushable(old(Now()), taken.value) && Now() == Take(old(Now()), task, taken.value)
      ensures taken.Some? ==> WholeBufferTaken(old(Now()), Now(), task, taken.value)
      ensures taken.Some? ==> forall p :: p in old(buffers) && p < taken.value ==> old(buffers)[p].flushing || old(buffers)[p].records == []
      ensures taken.None? ==> Now() == old(Now()) && forall p :: p in buffers ==> buffers[p].flushing || buffers[p].records == []
    {
      taken := None;
      var keys: set<Partition> := buffers.Keys;
      while keys != {}
        invariant unchanged(this)
        invariant keys <= buffers.Keys
        invariant taken.Some? ==> Flushable(Now(), taken.value)
        invariant forall p :: p in buffers && p !in keys ==>
          buffers[p].flushing || buffers[p].records == [] || (taken.Some? && taken.value <= p)
        decreases keys
      {
        var p := Pick(keys);
        if !buffers[p].flushing && buffers[p].records != [] && (taken.None? || p < taken.value) {
          taken := Some(p);
        }
        keys := keys - {p};
      }
      if taken.Some? {
        var p := taken.value;
        tasks := tasks[task := Batch(p, buffers[p].records, buffers[p].waiters)];
        buffers := buffers[p := Buffer([], [], true)];
        holder := holder[p := task];
      }
    }

    /**
     One turn of `flush` after taking a batch: persist it, then the success or the failure
     section.  Seen from the state machine it is commits of other writers and its own, a
     persist action that leaves what the loop does not know to be logged, and a settling.
     */
    method FlushBatch(task: TaskId, store: PL.SegmentStore, maxSpans: nat) returns (ok: bool, ghost rest: seq<Record>)
      requires task in tasks && tasks[task].partition in buffers && store.keys == durable
      requires PL.DistinctKeys(tasks[task].remaining) || maxSpans <= 1
      modifies this, store
      ensures durable == store.keys
      ensures Now() == Settled(old(Now()), task, store.keys, rest, ok) && (ok <==> rest == [])
      ensures LeavesOnlyLogged(old(tasks)[task].remaining, rest, store.keys)
      ensures BatchEnds(old(Now()), Now(), task, rest, ok)
    {
      hide Settled, PL.Without, PL.KeysOf, PL.DistinctKeys, PL.WrittenOnce, PL.Sizes, PL.LeftOf, PL.RoundsReach, Count, Tell, FinishOk, FinishErr, LeavesOnlyLogged, KeepsOrder, Flatten, BatchEnds;
      ghost var before := Now();
      var records := tasks[task].remaining;
      var outcome, gone, written := store.PersistPartitionRecords(records, maxSpans);
      ok := outcome.Receipts?;
      var left := if outcome.Receipts? then [] else outcome.records;
      rest := left;
      OnlyLoggedLeft(records, left, gone, written, store.keys, ok);
      SettledIs(before, task, store.keys, rest, ok);
      SettledEnds(before, task, store.keys, rest, ok);
      KeepUnlogged(task, left, store.keys);
      if ok {
        CompleteOk(task);
      } else {
        CompleteErr(task);
      }
    }

    /** What a batch still holds when its persisting ends. */
    method KeepUnlogged(task: TaskId, rest: seq<Record>, ghost keys: set<string>)
      requires task in tasks
      modifies this`tasks, this`settled, this`durable
      ensures Now() == PersistSome(old(Now()).(durable := keys), task, {}, rest)
    {
      hide Count;
      var batch := tasks[task];
      assert keys + {} == keys;
      durable := keys;
      settled := settled[batch.partition := Count(settled, batch.partition) + (multiset(batch.remaining) - multiset(rest))];
      tasks := tasks[task := batch.(remaining := rest)];
    }

    /** The success section of `flush`. */
    method CompleteOk(task: TaskId)
      requires task in tasks && tasks[task].remaining == [] && tasks[task].partition in buffers
      modifies this
      ensures Now() == FinishOk(old(Now()), task)
      ensures BatchEnds(old(Now()), Now(), task, [], true)
    {
      OkEnds(Now(), task);
      hide BatchEnds, Tell;
      var batch := tasks[task];
      var p := batch.partition;
      buffers := buffers[p := buffers[p].(flushing := false)];
      if buffers[p].records == [] && buffers[p].waiters == [] {
        buffers := buffers - {p};
      }
      assert buffers == FinishOk(old(Now()), task).buffers;
      tasks, holder := tasks - {task}, holder - {p};
      told := Tell(told, batch.waiters, true);
    }

    /** The failure section of `flush`. */
    method CompleteErr(task: TaskId)
      requires task in tasks
      modifies this
      ensures Now() == FinishErr(old(Now()), task)
      ensures BatchEnds(old(Now()), Now(), task, old(tasks)[task].remaining, false)
    {
      ErrEnds(Now(), task);
      hide BatchEnds, Tell;
      var batch := tasks[task];
      var p := batch.partition;
      var buffer := if p in buffers then buffers[p] else Buffer([], [], false);
      var unflushed := batch.remaining + buffer.records;
      var waiters := batch.waiters + buffer.waiters;
      buffers := buffers[p := Buffer(unflushed, [], false)];
      tasks, holder := tasks - {task}, holder - {p};
      told := Tell(told, waiters, false);
    }
  }

  /** The buffer's records and waiters become the task's batch, and the buffer is empty and flushing. */
  ghost predicate WholeBufferTaken(s: State, after: State, t: TaskId, p: Partition) {
    && p in s.buffers && !s.buffers[p].flushing && s.buffers[p].records != []
    && after.tasks == s.tasks[t := Batch(p, s.buffers[p].records, s.buffers[p].waiters)]
    && after.buffers == s.buffers[p := Buffer([], [], true)]
    && after.told == s.told && after.nextWaiter == s.nextWaiter
  }

  /** These waiters hear how it ended, and nobody else does. */
  ghost predicate NowTold(before: map<WaiterId, bool>, after: map<WaiterId, bool>, waiters: seq<WaiterId>, ok: bool) {
    && (forall w :: w in after <==> w in before || w in waiters)
    && (forall w :: w in waiters ==> w in after && after[w] == ok)
    && (forall w :: w in before && w !in waiters ==> w in after && after[w] == before[w])
  }

  ghost predicate OnlyBuffer(before: map<Partition, Buffer>, after: map<Partition, Buffer>, p: Partition) {
    && (forall q :: q != p ==> (q in after <==> q in before))
    && (forall q :: q != p && q in before ==> q in after && after[q] == before[q])
  }

  /**
   How a batch ends.  After a success its waiters hear of it, and its buffer is idle and goes
   when nothing arrived meanwhile.  After a failure what is left stands in the idle buffer in
   front of what arrived, and both its waiters and those that came later hear of the failure.
   */
  ghost predicate BatchEnds(s: State, after: State, t: TaskId, rest: seq<Record>, ok: bool)
    requires t in s.tasks
  {
    var batch := s.tasks[t];
    var p := batch.partition;
    var arrived := if p in s.buffers then s.buffers[p].records else [];
    var waiting := if p in s.buffers then s.buffers[p].waiters else [];
    && after.tasks == s.tasks - {t} && after.nextWaiter == s.nextWaiter && OnlyBuffer(s.buffers, after.buffers, p)
    && (ok ==> NowTold(s.told, after.told, batch.waiters, true))
    && (ok ==> (p in after.buffers <==> arrived != [] || waiting != []))
    && (ok && p in after.buffers ==> after.buffers[p] == Buffer(arrived, waiting, false))
    && (!ok ==> NowTold(s.told, after.told, batch.waiters + waiting, false))
    && (!ok ==> p in after.buffers && after.buffers[p] == Buffer(rest + arrived, [], false))
  }

  lemma {:induction false} TellTells(told: map<WaiterId, bool>, waiters: seq<WaiterId>, ok: bool)
    ensures NowTold(told, Tell(told, waiters, ok), waiters, ok)
  {
  }

  lemma {:induction false} OkEnds(s: State, t: TaskId)
    requires t in s.tasks
    ensures BatchEnds(s, FinishOk(s, t), t, [], true)
  {
    TellTells(s.told, s.tasks[t].waiters, true);
    hide NowTold, Tell;
  }

  lemma {:induction false} ErrEnds(s: State, t: TaskId)
    requires t in s.tasks
    ensures BatchEnds(s, FinishErr(s, t), t, s.tasks[t].remaining, false)
  {
    TellTells(s.told, s.tasks[t].waiters + BufferAt(s, s.tasks[t].partition).waiters, false);
    hide NowTold, Tell;
  }

  /** What the batch held before does not show in how it ends. */
  lemma {:induction false} EndsFrom(s: State, u: State, after: State, t: TaskId, rest: seq<Record>, ok: bool)
    requires t in s.tasks && t in u.tasks && s.tasks[t].waiters == u.tasks[t].waiters && s.tasks[t].partition == u.tasks[t].partition
    requires u.buffers == s.buffers && u.told == s.told && u.nextWaiter == s.nextWaiter && u.tasks - {t} == s.tasks - {t}
    requires BatchEnds(u, after, t, rest, ok)
    ensures BatchEnds(s, after, t, rest, ok)
  {
    hide NowTold, OnlyBuffer;
  }

  lemma {:induction false} SettledEnds(s: State, t: TaskId, keys: set<string>, rest: seq<Record>, ok: bool)
    requires t in s.tasks && s.durable <= keys && LeavesOnlyLogged(s.tasks[t].remaining, rest, keys) && (ok <==> rest == [])
    ensures BatchEnds(s, Settled(s, t, keys, rest, ok), t, rest, ok)
  {
    hide LeavesOnlyLogged, BatchEnds, Count, Tell, BufferAt, FinishOk, FinishErr, Settled;
    SettledIs(s, t, keys, rest, ok);
    var u := PersistSome(s.(durable := keys), t, {}, rest);
    if ok {
      OkEnds(u, t);
    } else {
      ErrEnds(u, t);
    }
    EndsFrom(s, u, Settled(s, t, keys, rest, ok), t, rest, ok);
  }

  /** A batch's persisting and settling as actions: commits by any writer, what left the batch, how it ended. */
  ghost function Settled(s: State, t: TaskId, keys: set<string>, rest: seq<Record>, ok: bool): State {
    Step(Step(Step(s, OtherWriter(keys)), Persist(t, {}, rest)), if ok then SettleOk(t) else SettleErr(t))
  }

  lemma {:induction false} SettledDurable(s: State, t: TaskId, rest: seq<Record>)
    requires t in s.tasks
    ensures var after := PersistSome(s, t, {}, rest);
            && t in after.tasks && after.tasks[t] == s.tasks[t].(remaining := rest) && after.buffers == s.buffers
            && FinishOk(after, t).durable == s.durable && FinishErr(after, t).durable == s.durable
  {
    hide Count, Tell, BufferAt;
    assert s.durable + {} == s.durable;
  }

  lemma {:induction false} SettledIs(s: State, t: TaskId, keys: set<string>, rest: seq<Record>, ok: bool)
    requires t in s.tasks && s.durable <= keys && LeavesOnlyLogged(s.tasks[t].remaining, rest, keys) && (ok <==> rest == [])
    ensures var after := PersistSome(s.(durable := keys), t, {}, rest);
            && t in after.tasks && after.tasks[t] == s.tasks[t].(remaining := rest)
            && after.buffers == s.buffers && FinishOk(after, t).durable == keys && FinishErr(after, t).durable == keys
            && Settled(s, t, keys, rest, ok) == if ok then FinishOk(after, t) else FinishErr(after, t)
  {
    hide LeavesOnlyLogged, Count, Tell, BufferAt, PersistSome;
    SettledDurable(s.(durable := keys), t, rest);
    hide FinishOk, FinishErr;
    assert s.durable + keys == keys && keys + {} == keys;
  }

  /** The loop's outcome leaves out only records whose keys it knows to be logged. */
  lemma {:induction false} OnlyLoggedLeft(records: seq<Record>, left: seq<Record>, gone: set<string>, written: seq<seq<Record>>, keys: set<string>, ok: bool)
    requires gone <= keys
    requires ok ==> left == [] && PL.KeysOf(records) <= gone
    requires !ok ==> PL.LeftOf(records, left, gone) && multiset(left) <= multiset(records)
    requires ok ==> KeepsOrder(Flatten(written), records)
    requires !ok ==> KeepsOrder(Flatten(written) + left, records)
    ensures LeavesOnlyLogged(records, left, keys)
  {
    if ok {
      assert Flatten(written) + [] == Flatten(written);
    }
    KeepsRear(Flatten(written), left, records);
    hide KeepsOrder, Flatten;
    if ok {
      forall r | r in multiset(records)
        ensures r.key in keys
      {
        var i :| 0 <= i < |records| && records[i] == r;
        assert r.key in PL.KeysOf(records);
      }
    } else {
      PL.WithoutCounts(records, gone);
      PL.WithoutCounts(left, gone);
    }
  }

  lemma {:induction false} EnqueueNone(s: State, groups: seq<(Partition, seq<Record>)>)
    ensures EnqueueAll(s, groups[..0]) == s
  {
  }

  lemma {:induction false} EnqueueOneMore(s: State, groups: seq<(Partition, seq<Record>)>, i: nat)
    requires i < |groups|
    ensures var t := EnqueueAll(s, groups[..i]);
      var (p, records) := groups[i];
      var buffer := BufferAtKey(t.buffers, p);
      EnqueueAll(s, groups[..i + 1]) ==
      t.(buffers := t.buffers[p := buffer.(records := buffer.records + records, waiters := buffer.waiters + [t.nextWaiter])],
         nextWaiter := t.nextWaiter + 1,
         accepted := t.accepted[p := Count(t.accepted, p) + multiset(records)],
         claims := t.claims[t.nextWaiter := Claim(p, records)])
  {
    assert groups[..i + 1][..i] == groups[..i];
  }

  function EnqueueAll(s: State, groups: seq<(Partition, seq<Record>)>): State {
    if groups == [] then s
    else
      var n := |groups| - 1;
      EnqueueGroup(EnqueueAll(s, groups[..n]), groups[n].0, groups[n].1)
  }

  /** The records of the groups of one partition, in their order. */
  function RecordsFor(groups: seq<(Partition, seq<Record>)>, p: Partition): seq<Record> {
    if groups == [] then []
    else
      var n := |groups| - 1;
      RecordsFor(groups[..n], p) + if groups[n].0 == p then groups[n].1 else []
  }

  /** The waiters of the groups of one partition, numbered from the next free one. */
  function WaitersFor(groups: seq<(Partition, seq<Record>)>, p: Partition, next: WaiterId): seq<WaiterId> {
    if groups == [] then []
    else
      var n := |groups| - 1;
      WaitersFor(groups[..n], p, next) + if groups[n].0 == p then [next + n] else []
  }

  /** A partition's groups stand behind what its buffer held, and their waiters behind its waiters. */
  ghost predicate EnqueuedAt(s: State, after: State, groups: seq<(Partition, seq<Record>)>, p: Partition) {
    var buffer := BufferAt(s, p);
    && BufferAt(after, p) ==
         Buffer(buffer.records + RecordsFor(groups, p), buffer.waiters + WaitersFor(groups, p, s.nextWaiter), buffer.flushing)
    && (p in after.buffers <==> p in s.buffers || Receives(groups, p))
  }

  ghost predicate Receives(groups: seq<(Partition, seq<Record>)>, p: Partition) {
    exists i :: 0 <= i < |groups| && groups[i].0 == p
  }

  ghost predicate AllEnqueued(s: State, after: State, groups: seq<(Partition, seq<Record>)>) {
    && after.tasks == s.tasks && after.told == s.told && after.nextWaiter == s.nextWaiter + |groups|
    && forall p :: EnqueuedAt(s, after, groups, p)
  }

  lemma {:induction false} EnqueueAllMeans(s: State, groups: seq<(Partition, seq<Record>)>)
    ensures AllEnqueued(s, EnqueueAll(s, groups), groups)
  {
    hide BufferAt, EnqueuedAt, EnqueueGroup;
    if groups == [] {
      forall p
        ensures EnqueuedAt(s, s, groups, p)
      {
        NothingEnqueued(s, groups, p);
      }
    } else {
      var n := |groups| - 1;
      var before := EnqueueAll(s, groups[..n]);
      EnqueueAllMeans(s, groups[..n]);
      var (q, records) := groups[n];
      EnqueueParts(before, q, records);
      forall p
        ensures EnqueuedAt(s, EnqueueGroup(before, q, records), groups, p)
      {
        EnqueuedMore(s, before, EnqueueGroup(before, q, records), groups, p);
      }
    }
  }

  lemma {:induction false} NothingEnqueued(s: State, groups: seq<(Partition, seq<Record>)>, p: Partition)
    requires groups == []
    ensures EnqueuedAt(s, s, groups, p)
  {
    hide BufferAt;
    var buffer := BufferAt(s, p);
    assert buffer.records + [] == buffer.records && buffer.waiters + [] == buffer.waiters;
  }

  lemma {:induction false} ReceivesLast(groups: seq<(Partition, seq<Record>)>, p: Partition)
    requires groups != []
    ensures Receives(groups, p) <==> Receives(groups[..|groups| - 1], p) || groups[|groups| - 1].0 == p
  {
    var n := |groups| - 1;
    if i :| 0 <= i < n && groups[..n][i].0 == p {
      assert groups[i].0 == p;
    }
    if i :| 0 <= i < |groups| && groups[i].0 == p {
      assert i < n ==> groups[..n][i].0 == p;
    }
  }

  lemma {:induction false} EnqueuedMore(s: State, before: State, after: State, groups: seq<(Partition, seq<Record>)>, p: Partition)
    requires groups != [] && EnqueuedAt(s, before, groups[..|groups| - 1], p)
    requires before.nextWaiter == s.nextWaiter + (|groups| - 1) && after.buffers.Keys == before.buffers.Keys + {groups[|groups| - 1].0}
    requires groups[|groups| - 1].0 != p ==> BufferAt(after, p) == BufferAt(before, p)
    requires groups[|groups| - 1].0 == p ==>
      BufferAt(after, p) == BufferAt(before, p).(records := BufferAt(before, p).records + groups[|groups| - 1].1,
                                                 waiters := BufferAt(before, p).waiters + [before.nextWaiter])
    ensures EnqueuedAt(s, after, groups, p)
  {
    hide BufferAt, Receives;
    var n := |groups| - 1;
    ReceivesLast(groups, p);
    var buffer := BufferAt(s, p);
    if groups[n].0 == p {
      ThreeParts(buffer.records, RecordsFor(groups[..n], p), groups[n].1);
      ThreeParts(buffer.waiters, WaitersFor(groups[..n], p, s.nextWaiter), [before.nextWaiter]);
    } else {
      assert RecordsFor(groups[..n], p) + [] == RecordsFor(groups[..n], p);
      assert WaitersFor(groups[..n], p, s.nextWaiter) + [] == WaitersFor(groups[..n], p, s.nextWaiter);
    }
  }
}
