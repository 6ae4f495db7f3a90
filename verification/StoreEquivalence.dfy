/** The in-memory store and the exact-time SQL store behave alike: run against the same events, requests have the same
    effective status at every moment and every successful answer is the same. */
module StoreEquivalence {
  import opened Timestamp
  import opened Wrappers
  import opened Requests
  import opened Executor
  import opened PamMatcher
  import opened Ledger
  import opened Protocol
  import opened Linearization

  /** A pending request past its expiry counts as expired, whether or not the store has noticed. */
  function Effective(r: Request, clock: Instant): Status {
    if r.status.Pending? && Before(r.expiresAt, clock) then Expired else r.status
  }

  predicate Final(status: Status) {
    status.Completed? || status.Failed?
  }

  /** Until its result is recorded, when the in-memory store drops all else, a request is the same in both stores. */
  predicate RowsAgree(m: Request, d: Request, clock: Instant) {
    && Effective(m, clock) == Effective(d, clock)
    && (!Final(d.status) ==> SameWork(m, d))
  }

  predicate SameWork(a: Request, b: Request) {
    a.id == b.id && a.command == b.command && a.expiresAt == b.expiresAt
  }

  predicate TablesAgree(m: Table, d: Table, clock: Instant) {
    m.Keys == d.Keys && forall id :: id in d ==> RowsAgree(m[id], d[id], clock)
  }

  predicate Settled(t: Table, id: string, clock: Instant) {
    id in t && !Effective(t[id], clock).Pending?
  }

  /** The process cannot change an effective status any more, nor report success. */
  predicate Inert(process: Process, t: Table, clock: Instant) {
    match process
    case Checking(call, _) => Settled(t, call.id, clock)
    case Marking(call, _) => Settled(t, call.id, clock)
    case Stamping(call, _) => Settled(t, call.id, clock)
    case Swapping(call, _, _) => Settled(t, call.id, clock)
    case Done(Decide(_), reply) => !Successful(reply)
    case _ => false
  }

  predicate Successful(reply: Reply) {
    reply.PamApproved? || reply.WasDenied? || reply.WasCompleted? || reply.ExecutionFailed?
  }

  /** At the same point, on the same work. */
  predicate Alike(m: Process, d: Process) {
    match d
    case Checking(call, req) => m.Checking? && m.call == call && SameWork(m.req, req)
    case Marking(call, req) => m.Marking? && m.call == call && SameWork(m.req, req)
    case Stamping(call, req) => m.Stamping? && m.call == call && SameWork(m.req, req)
    case Swapping(call, req, _) => m.Swapping? && m.call == call && SameWork(m.req, req)
    case Launching(call, req) => m.Launching? && m.call == call && SameWork(m.req, req)
    case Recording(call, _, verdict) => m.Recording? && m.call == call && m.verdict == verdict
    case Purging(_) => m.Purging?
    case _ => m == d
  }

  predicate ProcessesAgree(m: Process, d: Process, t: Table, clock: Instant) {
    Alike(m, d) || (Inert(m, t, clock) && Inert(d, t, clock))
  }

  predicate Agree(m: State, d: State) {
    && m.clock == d.clock && TablesAgree(m.table, d.table, d.clock)
    && m.processes.Keys == d.processes.Keys
    && forall p :: p in d.processes ==> ProcessesAgree(m.processes[p], d.processes[p], d.table, d.clock)
  }

  /** The provisos: filed ids are new, no process acts exactly at an instant when some request expires, and no SQL
      statement waits for a row lock. */
  predicate Orderly(s: State, e: Event) {
    e.Advance? && e.p in s.processes ==>
      && !e.choice.waits
      && (forall id :: id in s.table ==> Nanos(s.table[id].expiresAt) != Nanos(s.clock))
      && (s.processes[e.p].Starting? && s.processes[e.p].task.File? ==> s.processes[e.p].task.draft.id !in s.table)
  }

  predicate OrderlyRun(c: Config, s: State, events: seq<Event>) {
    events == []
    || (OrderlyRun(c, s, events[..|events| - 1])
        && Orderly(RunAll(c, s, events[..|events| - 1]), events[|events| - 1]))
  }

  /** What has been settled stays settled. */
  predicate KeepsSettled(before: Table, after: Table, clock: Instant) {
    forall id :: id in before && Settled(before, id, clock) ==> Settled(after, id, clock)
  }

  /** Both stores' tables after a step of one process in each, and what became of the process. */
  predicate EffectsAgree(before: Table, m: Effect, d: Effect, clock: Instant) {
    && TablesAgree(m.table, d.table, clock) && KeepsSettled(before, d.table, clock)
    && ProcessesAgree(m.process, d.process, d.table, clock)
  }

  function InMemory(c: Config): Config {
    c.(backend := Memory)
  }

  // ---------------------------------------------------------------- single statements

  /** An approve or deny statement: away from the expiry instant both stores accept exactly the unsettled requests. */
  lemma SwapsAgree(m: Table, d: Table, id: string, target: Status, actor: string, now: Instant)
    requires TablesAgree(m, d, now) && id in d && (target.Approved? || target.Denied?)
    requires Nanos(d[id].expiresAt) != Nanos(now)
    ensures var (m', mWon) := Swap(Memory, m, id, Pending, target, actor, now);
            var (d', dWon) := Swap(Postgres, d, id, Pending, target, actor, now);
            && mWon == dWon == !Settled(d, id, now)
            && TablesAgree(m', d', now) && KeepsSettled(d, d', now)
  {
    hide Nanos, Format;
  }

  /** An expiry statement on a settled request changes no effective status in either store. */
  lemma MarksAgree(m: Table, d: Table, id: string, now: Instant)
    requires TablesAgree(m, d, now) && Settled(d, id, now)
    ensures var m' := Swap(Memory, m, id, Pending, Expired, "", now).0;
            var d' := Swap(Postgres, d, id, Pending, Expired, "", now).0;
            && TablesAgree(m', d', now) && TablesAgree(m', d, now) && TablesAgree(m, d', now)
            && KeepsSettled(d, d', now) && KeepsSettled(d', d, now)
  {
    hide Nanos, Format;
  }

  lemma SweptRowsAgree(m: Request, d: Request, now: Instant)
    requires RowsAgree(m, d, now) && Nanos(d.expiresAt) != Nanos(now)
    ensures var m', d' := Swept(Memory, m, now), Swept(Postgres, d, now);
            && RowsAgree(m', d', now) && RowsAgree(m', d, now) && RowsAgree(m, d', now)
            && Effective(d', now) == Effective(d, now)
  {
    hide Nanos, Format;
  }

  lemma SweepsAgree(m: Table, d: Table, now: Instant)
    requires TablesAgree(m, d, now)
    requires forall id :: id in d ==> Nanos(d[id].expiresAt) != Nanos(now)
    ensures var m' := Sweep(Memory, m, now);
            var d' := Sweep(Postgres, d, now);
            && TablesAgree(m', d', now) && KeepsSettled(d, d', now)
  {
    hide Nanos, RowsAgree, Swept, Effective;
    forall id | id in d
      ensures RowsAgree(Swept(Memory, m[id], now), Swept(Postgres, d[id], now), now)
      ensures Effective(Swept(Postgres, d[id], now), now) == Effective(d[id], now)
    {
      SweptRowsAgree(m[id], d[id], now);
    }
  }

  lemma OverwritesAgree(m: Table, d: Table, id: string, verdict: Verdict, now: Instant)
    requires TablesAgree(m, d, now) && id in d
    ensures var m' := Overwrite(Memory, m, FinalRecord(id, verdict));
            var d' := Overwrite(Postgres, d, FinalRecord(id, verdict));
            TablesAgree(m', d', now) && KeepsSettled(d, d', now)
  {
    hide Nanos, RowsAgree, Effective, FinalRecord;
    FinalRowsAgree(d[id], id, verdict, now);
  }

  /** The record the in-memory store keeps, and the row the SQL store is left with. */
  lemma FinalRowsAgree(d: Request, id: string, verdict: Verdict, now: Instant)
    ensures var final := FinalRecord(id, verdict);
            var row := d.(status := final.status, approvedBy := final.approvedBy, approvedAt := final.approvedAt,
                          output := final.output, exitCode := final.exitCode);
            final.id == id && RowsAgree(final, row, now) && !Effective(row, now).Pending?
  {
    hide Nanos;
  }

  lemma InsertsAgree(m: Table, d: Table, draft: Request, now: Instant)
    requires TablesAgree(m, d, now) && IsDraft(draft) && draft.id !in d
    ensures var m' := Insert(Memory, m, draft).0;
            var d' := Insert(Postgres, d, draft).0;
            TablesAgree(m', d', now) && KeepsSettled(d, d', now)
    ensures Insert(Memory, m, draft).1 && Insert(Postgres, d, draft).1
  {
    hide Nanos;
  }

  // ---------------------------------------------------------------- steps of one process

  /** What a reader of both rows sees while the request is unsettled. */
  lemma UnsettledRows(m: Request, d: Request, now: Instant)
    requires RowsAgree(m, d, now)
    ensures Effective(d, now).Pending? ==> m.status.Pending? && d.status.Pending? && SameWork(m, d)
    ensures !Effective(d, now).Pending? ==> !Effective(m, now).Pending?
  {
    hide Nanos;
  }

  lemma LookupsAgree(c: Config, m: Table, d: Table, clock: Instant, p: ProcessId, call: Call, choice: Choice)
    requires c.backend.Postgres? && TablesAgree(m, d, clock)
    ensures EffectsAgree(d, Lookup(InMemory(c), m, p, call, choice), Lookup(c, d, p, call, choice), clock)
  {
    hide Nanos, RowsAgree, Effective;
    if call.id in d {
      UnsettledRows(m[call.id], d[call.id], clock);
    }
  }

  lemma ChecksAgree(c: Config, b: Book, m: Table, d: Table, clock: Instant, call: Call, mReq: Request, dReq: Request)
    requires TablesAgree(m, d, clock) && Matches(d, b) && Knows(b, call, dReq) && SameWork(mReq, dReq)
    ensures EffectsAgree(d, Check(m, clock, call, mReq), Check(d, clock, call, dReq), clock)
  {
    hide Nanos, TablesAgree, Settled, Matches, Knows;
  }

  /** Inert processes stay inert and the tables stay in agreement, even when the two stand at different points. */
  lemma InertMoves(c: Config, m: Table, d: Table, clock: Instant, p: ProcessId, mProcess: Process, dProcess: Process, choice: Choice)
    requires c.backend.Postgres? && TablesAgree(m, d, clock)
    requires Inert(mProcess, d, clock) && Inert(dProcess, d, clock) && !choice.waits
    requires forall id :: id in d ==> Nanos(d[id].expiresAt) != Nanos(clock)
    ensures EffectsAgree(d, Move(InMemory(c), m, clock, p, mProcess, choice), Move(c, d, clock, p, dProcess, choice), clock)
  {
    var mEffect := Move(InMemory(c), m, clock, p, mProcess, choice);
    var dEffect := Move(c, d, clock, p, dProcess, choice);
    InertMemoryMove(c, m, d, clock, p, mProcess, choice);
    InertSqlMove(c, m, d, clock, p, dProcess, choice);
    hide Move, RowsAgree, Nanos;
    assert m == mEffect.table;
  }

  lemma SettledRowsRefuse(m: Request, d: Request, target: Status, now: Instant)
    requires RowsAgree(m, d, now) && !Effective(d, now).Pending?
    ensures !Swappable(Memory, m, Pending, target, now)
    ensures IsDecision(target) ==> !Swappable(Postgres, d, Pending, target, now)
  {
    hide Nanos, Format;
  }

  /** In memory a settled request is not written at all. */
  lemma InertMemoryMove(c: Config, m: Table, d: Table, clock: Instant, p: ProcessId, process: Process, choice: Choice)
    requires TablesAgree(m, d, clock) && Inert(process, d, clock)
    ensures var effect := Move(InMemory(c), m, clock, p, process, choice);
            effect.table == m && Inert(effect.process, d, clock)
  {
    hide Nanos, RowsAgree, Swappable, Swapped, Effective;
    match process
    case Marking(call, _) => SettledRowsRefuse(m[call.id], d[call.id], Expired, clock);
    case Swapping(call, _, _) => SettledRowsRefuse(m[call.id], d[call.id], Target(call), clock);
    case _ =>
  }

  lemma InertSqlMove(c: Config, m: Table, d: Table, clock: Instant, p: ProcessId, process: Process, choice: Choice)
    requires c.backend.Postgres? && TablesAgree(m, d, clock) && Inert(process, d, clock) && !choice.waits
    ensures var effect := Move(c, d, clock, p, process, choice);
            && TablesAgree(m, effect.table, clock)
            && KeepsSettled(d, effect.table, clock) && KeepsSettled(effect.table, d, clock)
            && Inert(effect.process, effect.table, clock)
  {
    hide Nanos, RowsAgree, Swappable, Swapped, Effective;
    match process
    case Marking(call, _) => MarksAgree(m, d, call.id, clock);
    case Swapping(call, _, _) => SettledRowsRefuse(m[call.id], d[call.id], Target(call), clock);
    case _ =>
  }

  lemma DecisionsAgree(c: Config, m: Table, d: Table, clock: Instant, p: ProcessId, call: Call,
                       mReq: Request, dReq: Request, choice: Choice)
    requires c.backend.Postgres? && TablesAgree(m, d, clock) && call.id in d && SameWork(mReq, dReq)
    requires Nanos(d[call.id].expiresAt) != Nanos(clock)
    ensures EffectsAgree(d, Decided(InMemory(c), m, p, call, mReq, clock, clock, choice),
                         Decided(c, d, p, call, dReq, clock, clock, choice), clock)
  {
    hide Nanos, Swap, RowsAgree, Settled;
    SwapsAgree(m, d, call.id, Target(call), call.Actor(), clock);
  }

  lemma MarkStepsAgree(c: Config, m: Table, d: Table, clock: Instant, p: ProcessId, call: Call, choice: Choice)
    requires c.backend.Postgres? && TablesAgree(m, d, clock) && Settled(d, call.id, clock)
    ensures EffectsAgree(d, Mark(InMemory(c), m, clock, p, call, choice), Mark(c, d, clock, p, call, choice), clock)
  {
    hide Nanos, Swap, RowsAgree, Settled;
    MarksAgree(m, d, call.id, clock);
  }

  lemma RecordsAgree(c: Config, m: Table, d: Table, clock: Instant, p: ProcessId, call: Call, verdict: Verdict, choice: Choice)
    requires c.backend.Postgres? && TablesAgree(m, d, clock) && call.id in d
    ensures EffectsAgree(d, Record(InMemory(c), m, p, call, verdict, choice), Record(c, d, p, call, verdict, choice), clock)
  {
    hide Nanos, Overwrite, FinalRecord, RowsAgree, Settled;
    OverwritesAgree(m, d, call.id, verdict, clock);
  }

  lemma FilesAgree(c: Config, m: Table, d: Table, clock: Instant, p: ProcessId, draft: Request, viaPam: bool, choice: Choice)
    requires c.backend.Postgres? && TablesAgree(m, d, clock) && IsDraft(draft) && draft.id !in d
    ensures EffectsAgree(d, FileNow(InMemory(c), m, p, draft, viaPam, choice), FileNow(c, d, p, draft, viaPam, choice), clock)
  {
    hide Nanos, Insert, RowsAgree, Settled, Allowed, PamAllowed;
    InsertsAgree(m, d, draft, clock);
  }

  lemma PurgesAgree(c: Config, m: Table, d: Table, clock: Instant, p: ProcessId, choice: Choice)
    requires c.backend.Postgres? && TablesAgree(m, d, clock)
    requires forall id :: id in d ==> Nanos(d[id].expiresAt) != Nanos(clock)
    ensures EffectsAgree(d, PurgeNow(InMemory(c), m, p, clock, clock, choice), PurgeNow(c, d, p, clock, clock, choice), clock)
  {
    hide Nanos, Sweep, OverdueIds, RowsAgree, Settled;
    SweepsAgree(m, d, clock);
  }

  lemma AlikeMoves(c: Config, b: Book, m: Table, d: Table, clock: Instant, log: seq<Entry>, p: ProcessId,
                   mProcess: Process, dProcess: Process, choice: Choice)
    requires c.backend.Postgres? && TablesAgree(m, d, clock) && Alike(mProcess, dProcess)
    requires Matches(d, b) && ProcessHolds(b, clock, log, p, dProcess)
    requires forall id :: id in d ==> Nanos(d[id].expiresAt) != Nanos(clock)
    requires !choice.waits && (dProcess.Starting? && dProcess.task.File? ==> dProcess.task.draft.id !in d)
    ensures EffectsAgree(d, Move(InMemory(c), m, clock, p, mProcess, choice), Move(c, d, clock, p, dProcess, choice), clock)
  {
    hide Nanos, Lookup, Check, Mark, Decided, Record, FileNow, PurgeNow, RowsAgree, RowMatches, Argv, Recorded, Settled;
    match dProcess
    case Starting(Decide(call)) => LookupsAgree(c, m, d, clock, p, call, choice);
    case Starting(File(draft, viaPam)) => FilesAgree(c, m, d, clock, p, draft, viaPam, choice);
    case Checking(call, req) => ChecksAgree(c, b, m, d, clock, call, mProcess.req, req);
    case Marking(call, req) =>
      PastExpiryIsSettled(b, d, clock, call, req);
      MarkStepsAgree(c, m, d, clock, p, call, choice);
    case Swapping(call, req, _) => DecisionsAgree(c, m, d, clock, p, call, mProcess.req, req, choice);
    case Recording(call, _, verdict) => RecordsAgree(c, m, d, clock, p, call, verdict, choice);
    case Purging(_) => PurgesAgree(c, m, d, clock, p, choice);
    case _ =>
  }

  lemma PastExpiryIsSettled(b: Book, d: Table, clock: Instant, call: Call, req: Request)
    requires Matches(d, b) && Knows(b, call, req) && Before(req.expiresAt, clock)
    ensures Settled(d, call.id, clock)
  {
    hide Nanos;
  }

  // ---------------------------------------------------------------- all runs

  lemma EventsAgree(c: Config, m: State, d: State, e: Event)
    requires c.backend.Postgres? && Sql(c) && Agree(m, d) && Invariant(c, d) && Orderly(d, e)
    ensures Agree(Next(InMemory(c), m, e), Next(c, d, e))
  {
    hide Nanos, Move, RowsAgree, Alike, Matches, ProcessHolds;
    match e
    case Tick(time) =>
      if !Before(time, d.clock) {
        TimeAgrees(m, d, time);
      }
    case Arrive(_, task) => NewcomersAgree(task);
    case Advance(p, choice) =>
      if p in d.processes {
        var b := Replay(c.rules, d.log).value;
        var mEffect := Move(InMemory(c), m.table, m.clock, p, m.processes[p], choice);
        var dEffect := Move(c, d.table, d.clock, p, d.processes[p], choice);
        assert EffectsAgree(d.table, mEffect, dEffect, d.clock) by {
          if Alike(m.processes[p], d.processes[p]) {
            AlikeMoves(c, b, m.table, d.table, d.clock, d.log, p, m.processes[p], d.processes[p], choice);
          } else {
            InertMoves(c, m.table, d.table, d.clock, p, m.processes[p], d.processes[p], choice);
          }
        }
      }
  }

  lemma NewcomersAgree(task: Task)
    ensures Alike(Starting(task), Starting(task))
  {
  }

  lemma TimeAgrees(m: State, d: State, time: Instant)
    requires Agree(m, d) && !Before(time, d.clock)
    ensures Agree(m.(clock := time), d.(clock := time))
  {
    hide Nanos, Alike;
  }

  lemma {:induction false} RunsAgree(c: Config, start: Instant, events: seq<Event>)
    requires c.backend.Postgres? && Sql(c) && OrderlyRun(c, Initial(start), events)
    ensures Agree(RunAll(InMemory(c), Initial(start), events), RunAll(c, Initial(start), events))
    decreases |events|
  {
    hide Next, Agree, Orderly, Invariant;
    var past := events[..if events == [] then 0 else |events| - 1];
    if events == [] {
      EmptyAgrees(start);
    } else {
      RunsAgree(c, start, past);
      InvariantHolds(c, start, past);
      EventsAgree(c, RunAll(InMemory(c), Initial(start), past), RunAll(c, Initial(start), past), events[|events| - 1]);
    }
  }

  lemma EmptyAgrees(start: Instant)
    ensures Agree(Initial(start), Initial(start))
  {
  }

  /** Bisimilarity, as callers see it: the same requests with the same effective statuses, and the same successes. */
  lemma StoresAreEquivalent(c: Config, start: Instant, events: seq<Event>)
    requires c.backend.Postgres? && Sql(c) && OrderlyRun(c, Initial(start), events)
    ensures var m, d := RunAll(InMemory(c), Initial(start), events), RunAll(c, Initial(start), events);
            && m.clock == d.clock && m.table.Keys == d.table.Keys
            && (forall id :: id in d.table ==> Effective(m.table[id], m.clock) == Effective(d.table[id], d.clock))
            && m.processes.Keys == d.processes.Keys
            && (forall p :: p in d.processes && d.processes[p].Done? && Successful(d.processes[p].reply) ==>
                  m.processes[p] == d.processes[p])
            && (forall p :: p in d.processes && m.processes[p].Done? && Successful(m.processes[p].reply) ==>
                  m.processes[p] == d.processes[p])
  {
    hide Next, Nanos, Effective, ProcessesAgree, Successful;
    RunsAgree(c, start, events);
    var m, d := RunAll(InMemory(c), Initial(start), events), RunAll(c, Initial(start), events);
    forall p | p in d.processes
      ensures d.processes[p].Done? && Successful(d.processes[p].reply) ==> m.processes[p] == d.processes[p]
      ensures m.processes[p].Done? && Successful(m.processes[p].reply) ==> m.processes[p] == d.processes[p]
    {
      SuccessesAgree(m.processes[p], d.processes[p], d.table, d.clock);
    }
  }

  lemma SuccessesAgree(m: Process, d: Process, t: Table, clock: Instant)
    requires ProcessesAgree(m, d, t, clock)
    ensures d.Done? && Successful(d.reply) ==> m == d
    ensures m.Done? && Successful(m.reply) ==> m == d
  {
    hide Settled;
  }

  // ---------------------------------------------------------------- where they do differ

  /** The expiry statement on an overdue request: SQL writes and says so, memory does neither. */
  lemma ExpiryAnswersDiffer(t: Table, id: string, now: Instant)
    requires id in t && t[id].status.Pending? && Before(t[id].expiresAt, now)
    ensures Swap(Memory, t, id, Pending, Expired, "", now) == (t, false)
    ensures Swap(Postgres, t, id, Pending, Expired, "", now) == (t[id := t[id].(status := Expired)], true)
  {
    hide Nanos, Format;
  }

  /** The excluded wait: a SQL statement that reads the clock before the expiry and gets its row after it still decides,
      where the in-memory store, reading the clock when it holds the lock, refuses. */
  lemma WaitingDiffers(t: Table, id: string, target: Status, actor: string, stamp: Instant, now: Instant)
    requires id in t && t[id].status.Pending? && (target.Approved? || target.Denied?)
    requires Before(stamp, t[id].expiresAt) && Before(t[id].expiresAt, now)
    ensures Reading(Postgres, true, stamp, now) == stamp && Reading(Memory, true, stamp, now) == now
    ensures Swap(Postgres, t, id, Pending, target, actor, stamp).1 && !Swap(Memory, t, id, Pending, target, actor, now).1
  {
    hide Nanos, Format;
  }

  /** The excluded instant: a decision made exactly at the expiry succeeds in memory and fails in SQL, while a sweep
      then expires the request in SQL only. */
  lemma TheInstantItselfDiffers(t: Table, id: string, target: Status, actor: string, now: Instant)
    requires id in t && t[id].status.Pending? && t[id].expiresAt == now && (target.Approved? || target.Denied?)
    ensures Swap(Memory, t, id, Pending, target, actor, now).1 && !Swap(Postgres, t, id, Pending, target, actor, now).1
    ensures Sweep(Memory, t, now)[id].status == Pending && Sweep(Postgres, t, now)[id].status == Expired
  {
    hide Nanos, Format;
  }
}
