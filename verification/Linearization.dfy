/** Over a SQL store, every interleaving of handler steps is a run of the atomic machine: the log of atomic actions
    replays, its result is the table, and every answer given is the one the atomic machine gave. */
module Linearization {
  import opened Timestamp
  import opened Wrappers
  import opened Requests
  import opened Executor
  import opened Ledger
  import opened Protocol

  /** A SQL store, with the expiry guard that store really has. */
  predicate Sql(c: Config) {
    !c.backend.Memory? && c.rules.textual == c.backend.Sqlite?
  }

  // ---------------------------------------------------------------- the table is the book

  /** What the result columns hold. */
  predicate ResultsMatch(r: Request, phase: Phase) {
    match phase
    case Finished(_, Success(output)) => r.output == Some(output) && r.exitCode == Some(0)
    case Finished(_, Failure(message)) => r.output == Some(message) && r.exitCode == Some(1)
    case _ => r.output == None && r.exitCode == None
  }

  /** The actor is on record exactly while the request is approved or denied: the final `Update` erases it. */
  predicate ActorMatches(r: Request, phase: Phase) {
    match phase
    case Granted(_, actor) => r.approvedBy == actor != ""
    case Ran(_, actor, _) => r.approvedBy == actor != ""
    case Refused(actor) => r.approvedBy == actor != ""
    case _ => r.approvedBy == ""
  }

  predicate RowMatches(r: Request, t: Ticket, id: string) {
    && r.id == id && r.command == t.command && r.expiresAt == t.expires && r.status == t.phase.Status()
    && ActorMatches(r, t.phase) && ResultsMatch(r, t.phase)
  }

  predicate Matches(t: Table, b: Book) {
    t.Keys == b.Keys && forall id :: id in t ==> RowMatches(t[id], b[id], id)
  }

  // ---------------------------------------------------------------- what a process may rely on

  /** The process remembers the command and expiry of the request it works on. */
  predicate Knows(b: Book, call: Call, req: Request) {
    call.id in b && req.id == call.id && req.command == b[call.id].command && req.expiresAt == b[call.id].expires
  }

  /** The entry that justifies a final answer to a call. */
  predicate Justifies(e: Entry, p: ProcessId, call: Call, reply: Reply) {
    && e.p == p
    && match reply
       case NotFound => e == Look(p, call.id, None)
       case AlreadyIs(status) => !status.Pending? && e == Look(p, call.id, Some(status))
       case Conflict => e.Reject? && e.id == call.id
       case PamApproved => e.Grant? && e.id == call.id && e.actor == call.Actor() && call.Approving()
       case WasDenied => e.Refuse? && e.id == call.id && e.actor == call.Actor() && !call.Approving()
       case WasCompleted(output) => e.Run? && e.id == call.id && e.argv.Ok? && e.verdict == Success(output)
       case ExecutionFailed => e.Run? && e.id == call.id && e.verdict.Failure?
       case _ => false
  }

  predicate Recorded(log: seq<Entry>, p: ProcessId, call: Call, reply: Reply) {
    exists k :: 0 <= k < |log| && Justifies(log[k], p, call, reply)
  }

  /** Answers that promise nothing about the request. */
  predicate Evasive(reply: Reply) {
    reply.Unavailable? || reply.StoreFailure? || reply.Unauthorized? || reply.BadRequest? || reply.Forbidden?
  }

  predicate FiledAs(log: seq<Entry>, p: ProcessId, draft: Request) {
    exists k :: 0 <= k < |log| && log[k] == Submit(p, draft.id, draft.command, draft.expiresAt)
  }

  predicate AnswerHolds(b: Book, clock: Instant, log: seq<Entry>, p: ProcessId, task: Task, reply: Reply) {
    match task
    case Decide(call) =>
      || Evasive(reply)
      || (reply.Gone? && call.id in b && Before(b[call.id].expires, clock))
      || Recorded(log, p, call, reply)
    case File(draft, _) => reply.WasFiled? ==> FiledAs(log, p, draft)
    case Purge => true
  }

  predicate ProcessHolds(b: Book, clock: Instant, log: seq<Entry>, p: ProcessId, process: Process) {
    match process
    case Starting(task) => Admissible(task)
    case Checking(call, req) => Knows(b, call, req)
    case Marking(call, req) => Knows(b, call, req) && Before(req.expiresAt, clock)
    case Stamping(call, req) => Knows(b, call, req) && call.Complete()
    case Swapping(call, req, _) => Knows(b, call, req) && call.Complete()
    case Launching(call, req) => Knows(b, call, req) && b[call.id].phase.Granted? && b[call.id].phase.owner == p
    case Recording(call, req, verdict) =>
      && Knows(b, call, req) && b[call.id].phase.Ran? && b[call.id].phase.owner == p
      && b[call.id].phase.verdict == verdict && RunLogged(log, p, call, verdict)
    case Purging(_) => true
    case Done(task, reply) => AnswerHolds(b, clock, log, p, task, reply)
  }

  predicate RunLogged(log: seq<Entry>, p: ProcessId, call: Call, verdict: Verdict) {
    Recorded(log, p, call, if verdict.Success? then WasCompleted(verdict.output) else ExecutionFailed)
  }

  ghost predicate Invariant(c: Config, s: State) {
    && Legal(c.rules, s.log)
    && var b := Replay(c.rules, s.log).value;
    && Matches(s.table, b)
    && forall p :: p in s.processes ==> ProcessHolds(b, s.clock, s.log, p, s.processes[p])
  }

  // ---------------------------------------------------------------- one process step

  /** The step of process `p` keeps table and book together, is one permitted entry or none, and leaves `p` entitled
      to what it remembers. */
  predicate StepHolds(c: Config, b: Book, clock: Instant, log: seq<Entry>, p: ProcessId, effect: Effect) {
    match effect.entry
    case None => Matches(effect.table, b) && ProcessHolds(b, clock, log, p, effect.process)
    case Some(e) =>
      && e.p == p && Permitted(c.rules, b, e)
      && Matches(effect.table, After(c.rules, b, e))
      && ProcessHolds(After(c.rules, b, e), clock, log + [e], p, effect.process)
  }

  lemma JustLogged(log: seq<Entry>, e: Entry, p: ProcessId, call: Call, reply: Reply)
    requires Justifies(e, p, call, reply)
    ensures Recorded(log + [e], p, call, reply)
  {
    assert (log + [e])[|log|] == e;
  }

  lemma RowAgrees(r: Request, t: Ticket, id: string)
    requires RowMatches(r, t, id)
    ensures r.id == id && r.command == t.command && r.expiresAt == t.expires && r.status == t.phase.Status()
    ensures r.status.Pending? <==> t.phase.Open?
  {
  }

  lemma LookupHolds(c: Config, b: Book, t: Table, clock: Instant, log: seq<Entry>, p: ProcessId, call: Call, choice: Choice)
    requires Sql(c) && Matches(t, b)
    ensures StepHolds(c, b, clock, log, p, Lookup(c, t, p, call, choice))
  {
    hide Recorded, Nanos, RowMatches;
    if call.id in t {
      RowAgrees(t[call.id], b[call.id], call.id);
    }
    var effect := Lookup(c, t, p, call, choice);
    if effect.entry.Some? && effect.process.Done? && !Evasive(effect.process.reply) {
      JustLogged(log, effect.entry.value, p, call, effect.process.reply);
    }
  }

  lemma CheckHolds(c: Config, b: Book, t: Table, clock: Instant, log: seq<Entry>, p: ProcessId, call: Call, req: Request)
    requires Matches(t, b) && Knows(b, call, req)
    ensures StepHolds(c, b, clock, log, p, Check(t, clock, call, req))
  {
    hide Recorded, Nanos;
  }

  lemma RowLapses(c: Config, r: Request, t: Ticket, id: string, now: Instant)
    requires Sql(c) && RowMatches(r, t, id)
    ensures Swappable(c.backend, r, Pending, Expired, now) <==> t.phase.Open?
    ensures t.phase.Open? ==> RowMatches(Swapped(c.backend, r, Expired, "", now), t.(phase := Lapsed), id)
    ensures t.phase.Open? ==> RowMatches(r.(status := Expired), t.(phase := Lapsed), id)
  {
    hide Live;
  }

  lemma MarkHolds(c: Config, b: Book, t: Table, clock: Instant, log: seq<Entry>, p: ProcessId,
                  call: Call, req: Request, choice: Choice)
    requires Sql(c) && Matches(t, b) && Knows(b, call, req) && Before(req.expiresAt, clock)
    ensures StepHolds(c, b, clock, log, p, Mark(c, t, clock, p, call, choice))
  {
    hide Recorded, Nanos, RowMatches, Swappable, Swapped;
    RowLapses(c, t[call.id], b[call.id], call.id, clock);
  }

  lemma LiveIsInTime(c: Config, r: Request, now: Instant)
    requires Sql(c)
    ensures Live(c.backend, r, now) <==> InTime(c.rules, r.expiresAt, now)
  {
    hide Nanos, Format;
    ExpiryGuards(c.backend, r, now);
  }

  lemma RowDecides(c: Config, r: Request, t: Ticket, p: ProcessId, call: Call, now: Instant)
    requires Sql(c) && RowMatches(r, t, call.id) && call.Complete()
    ensures r.status.Pending? <==> t.phase.Open?
    ensures Swappable(c.backend, r, Pending, Target(call), now) ==>
              && t.phase.Open? && call.Actor() != "" && InTime(c.rules, t.expires, now)
              && RowMatches(Swapped(c.backend, r, Target(call), call.Actor(), now),
                            t.(phase := if call.Approving() then Granted(p, call.Actor()) else Phase.Refused(call.Actor())),
                            call.id)
    ensures !Swappable(c.backend, r, Pending, Target(call), now) && t.phase.Open? ==> !InTime(c.rules, t.expires, now)
  {
    hide Nanos, Live, InTime;
    LiveIsInTime(c, r, now);
    ActorIsNamed(call);
  }

  lemma DecidedHolds(c: Config, b: Book, t: Table, clock: Instant, log: seq<Entry>, p: ProcessId,
                     call: Call, req: Request, at: Instant, choice: Choice)
    requires Sql(c) && Matches(t, b) && Knows(b, call, req) && call.Complete()
    ensures StepHolds(c, b, clock, log, p, Decided(c, t, p, call, req, at, clock, choice))
  {
    hide Recorded, RowMatches, Swapped, Swappable, InTime;
    RowDecides(c, t[call.id], b[call.id], p, call, at);
    var effect := Decided(c, t, p, call, req, at, clock, choice);
    if effect.entry.Some? && effect.process.Done? && effect.process.reply != StoreFailure {
      JustLogged(log, effect.entry.value, p, call, effect.process.reply);
    }
  }

  lemma ActorIsNamed(call: Call)
    requires call.Complete()
    ensures call.Actor() != ""
  {
    if call.Pam? || (call.Telegram? && call.username == "") {
      assert call.Actor()[0] == 't';
    }
  }

  lemma RowRuns(r: Request, t: Ticket, id: string, p: ProcessId, verdict: Verdict)
    requires RowMatches(r, t, id) && t.phase.Granted?
    ensures RowMatches(r, t.(phase := Ran(p, t.phase.actor, verdict)), id)
  {
  }

  lemma LaunchHolds(c: Config, b: Book, t: Table, clock: Instant, log: seq<Entry>, p: ProcessId,
                    call: Call, req: Request, choice: Choice)
    requires Matches(t, b) && ProcessHolds(b, clock, log, p, Launching(call, req))
    ensures StepHolds(c, b, clock, log, p, Launch(c, t, p, call, req, choice))
  {
    hide Recorded, Nanos, Argv, RowMatches;
    var effect := Launch(c, t, p, call, req, choice);
    var verdict := effect.process.verdict;
    RowRuns(t[call.id], b[call.id], call.id, p, verdict);
    JustLogged(log, effect.entry.value, p, call,
               if verdict.Success? then WasCompleted(verdict.output) else ExecutionFailed);
  }

  /** What the unconditional `Update` does to the row of an executed request. */
  lemma RowFinishes(r: Request, t: Ticket, id: string, p: ProcessId)
    requires RowMatches(r, t, id) && t.phase.Ran?
    ensures var final := FinalRecord(id, t.phase.verdict);
            RowMatches(r.(status := final.status, approvedBy := final.approvedBy, approvedAt := final.approvedAt,
                          output := final.output, exitCode := final.exitCode),
                       t.(phase := Finished(p, t.phase.verdict)), id)
  {
  }

  /** The unconditional `Update` finds its request approved and executed by this very process. */
  lemma RecordHolds(c: Config, b: Book, t: Table, clock: Instant, log: seq<Entry>, p: ProcessId,
                    call: Call, req: Request, verdict: Verdict, choice: Choice)
    requires Sql(c) && Matches(t, b) && ProcessHolds(b, clock, log, p, Recording(call, req, verdict))
    ensures StepHolds(c, b, clock, log, p, Record(c, t, p, call, verdict, choice))
  {
    hide Nanos, Justifies, RowMatches, Knows;
    assert call.id in b by {
      KnownIsPresent(b, call, req);
    }
    RowFinishes(t[call.id], b[call.id], call.id, p);
    var effect := Record(c, t, p, call, verdict, choice);
    if effect.entry.Some? {
      RecordedGrows(log, effect.entry.value, p, call, effect.process.reply);
    }
  }

  lemma KnownIsPresent(b: Book, call: Call, req: Request)
    requires Knows(b, call, req)
    ensures call.id in b
  {
  }

  lemma RecordedGrows(log: seq<Entry>, e: Entry, p: ProcessId, call: Call, reply: Reply)
    requires Recorded(log, p, call, reply)
    ensures Recorded(log + [e], p, call, reply)
  {
    hide Justifies;
    var k :| 0 <= k < |log| && Justifies(log[k], p, call, reply);
    assert (log + [e])[k] == log[k];
  }

  lemma FileNowHolds(c: Config, b: Book, t: Table, clock: Instant, log: seq<Entry>, p: ProcessId,
                     draft: Request, viaPam: bool, choice: Choice)
    requires Sql(c) && Matches(t, b) && IsDraft(draft)
    ensures StepHolds(c, b, clock, log, p, FileNow(c, t, p, draft, viaPam, choice))
  {
    hide Acceptable, RowMatches;
    assert RowMatches(draft, Ticket(draft.command, draft.expiresAt, Open), draft.id) by {
      DraftMatches(draft);
    }
    assert draft == draft.(approvedBy := "", approvedAt := None, output := None, exitCode := None);
    var effect := FileNow(c, t, p, draft, viaPam, choice);
    if effect.entry.Some? {
      assert (log + [effect.entry.value])[|log|] == effect.entry.value;
    }
  }

  lemma DraftMatches(draft: Request)
    requires IsDraft(draft)
    ensures RowMatches(draft, Ticket(draft.command, draft.expiresAt, Open), draft.id)
  {
  }

  lemma SweepMatches(c: Config, b: Book, t: Table, p: ProcessId, now: Instant, clock: Instant)
    requires Sql(c) && Matches(t, b)
    ensures var e := LapseAll(p, OverdueIds(c.backend, t, now), now, clock);
            Permitted(c.rules, b, e) && Matches(Sweep(c.backend, t, now), After(c.rules, b, e))
  {
    hide RowMatches, Nanos, Live, Slack, InTime;
    forall id | id in t
      ensures RowMatches(t[id], b[id], id) && t[id].expiresAt == b[id].expires
      ensures t[id].status.Pending? <==> b[id].phase.Open?
      ensures t[id].status.Pending? ==> RowMatches(t[id].(status := Expired), b[id].(phase := Lapsed), id)
      ensures Live(c.backend, t[id], now) <==> InTime(c.rules, b[id].expires, now)
    {
      RowAgrees(t[id], b[id], id);
      RowLapses(c, t[id], b[id], id, now);
      LiveIsInTime(c, t[id], now);
    }
  }

  lemma PurgeHolds(c: Config, b: Book, t: Table, clock: Instant, log: seq<Entry>, p: ProcessId,
                   at: Instant, choice: Choice)
    requires Sql(c) && Matches(t, b)
    ensures StepHolds(c, b, clock, log, p, PurgeNow(c, t, p, at, clock, choice))
  {
    hide Matches, Permitted, After;
    SweepMatches(c, b, t, p, at, clock);
  }

  lemma MoveHolds(c: Config, b: Book, t: Table, clock: Instant, log: seq<Entry>, p: ProcessId, process: Process, choice: Choice)
    requires Sql(c) && Matches(t, b) && ProcessHolds(b, clock, log, p, process)
    ensures StepHolds(c, b, clock, log, p, Move(c, t, clock, p, process, choice))
  {
    hide StepHolds, Matches, Lookup, Check, Mark, Decided, Launch, Record, FileNow, PurgeNow, Nanos;
    match process
    case Starting(Decide(call)) => LookupHolds(c, b, t, clock, log, p, call, choice);
    case Starting(File(draft, viaPam)) => FileNowHolds(c, b, t, clock, log, p, draft, viaPam, choice);
    case Checking(call, req) => CheckHolds(c, b, t, clock, log, p, call, req);
    case Marking(call, req) => MarkHolds(c, b, t, clock, log, p, call, req, choice);
    case Swapping(call, req, stamp) =>
      DecidedHolds(c, b, t, clock, log, p, call, req, Reading(c.backend, choice.waits, stamp, clock), choice);
    case Launching(call, req) => LaunchHolds(c, b, t, clock, log, p, call, req, choice);
    case Recording(call, req, verdict) => RecordHolds(c, b, t, clock, log, p, call, req, verdict, choice);
    case Purging(stamp) => PurgeHolds(c, b, t, clock, log, p, Reading(c.backend, choice.waits, stamp, clock), choice);
    case _ => StaysPut(c, b, t, clock, log, p, Move(c, t, clock, p, process, choice));
  }

  lemma StaysPut(c: Config, b: Book, t: Table, clock: Instant, log: seq<Entry>, p: ProcessId, effect: Effect)
    requires Matches(t, b) && effect.table == t && effect.entry.None?
    requires ProcessHolds(b, clock, log, p, effect.process)
    ensures StepHolds(c, b, clock, log, p, effect)
  {
  }

  // ---------------------------------------------------------------- the others are not disturbed

  /** An entry by process `e.p` takes nothing away from any other process. */
  lemma OthersKeep(c: Config, b: Book, clock: Instant, log: seq<Entry>, e: Entry, q: ProcessId, process: Process)
    requires Permitted(c.rules, b, e) && q != e.p && ProcessHolds(b, clock, log, q, process)
    ensures ProcessHolds(After(c.rules, b, e), clock, log + [e], q, process)
  {
    hide Nanos, Argv, Permitted, Justifies, After, Recorded;
    match process
    case Done(Decide(call), reply) =>
      if Recorded(log, q, call, reply) {
        RecordedGrows(log, e, q, call, reply);
      }
      if call.id in b {
        EntryFrame(c.rules, b, e, call.id);
      }
    case Done(File(draft, _), reply) =>
      if FiledAs(log, q, draft) {
        var k :| 0 <= k < |log| && log[k] == Submit(q, draft.id, draft.command, draft.expiresAt);
        assert (log + [e])[k] == log[k];
      }
    case Recording(call, req, verdict) =>
      RecordedGrows(log, e, q, call, if verdict.Success? then WasCompleted(verdict.output) else ExecutionFailed);
      assert b[call.id].phase.OwnedBy(q);
      EntryFrame(c.rules, b, e, call.id);
    case Checking(call, _) => EntryFrame(c.rules, b, e, call.id);
    case Marking(call, _) => EntryFrame(c.rules, b, e, call.id);
    case Stamping(call, _) => EntryFrame(c.rules, b, e, call.id);
    case Swapping(call, _, _) => EntryFrame(c.rules, b, e, call.id);
    case Launching(call, _) =>
      assert b[call.id].phase.OwnedBy(q);
      EntryFrame(c.rules, b, e, call.id);
    case _ =>
  }

  /** Nor does the passage of time. */
  lemma TimeKeeps(b: Book, before: Instant, clock: Instant, log: seq<Entry>, q: ProcessId, process: Process)
    requires !Before(clock, before) && ProcessHolds(b, before, log, q, process)
    ensures ProcessHolds(b, clock, log, q, process)
  {
    hide Nanos, Recorded, FiledAs;
  }

  // ---------------------------------------------------------------- all runs

  lemma InvariantStarts(c: Config, start: Instant)
    ensures Invariant(c, Initial(start))
  {
  }

  lemma AdvanceKeeps(c: Config, s: State, p: ProcessId, choice: Choice)
    requires Sql(c) && Invariant(c, s) && p in s.processes
    ensures Invariant(c, Next(c, s, Advance(p, choice)))
  {
    hide Move, ProcessHolds, Matches, Permitted, After;
    var b := Replay(c.rules, s.log).value;
    var effect := Move(c, s.table, s.clock, p, s.processes[p], choice);
    MoveHolds(c, b, s.table, s.clock, s.log, p, s.processes[p], choice);
    if effect.entry.Some? {
      var e := effect.entry.value;
      ReplayAppend(c.rules, s.log, e);
      forall q | q in s.processes && q != p
        ensures ProcessHolds(After(c.rules, b, e), s.clock, s.log + [e], q, s.processes[q])
      {
        OthersKeep(c, b, s.clock, s.log, e, q, s.processes[q]);
      }
    }
  }

  lemma NextKeeps(c: Config, s: State, e: Event)
    requires Sql(c) && Invariant(c, s)
    ensures Invariant(c, Next(c, s, e))
  {
    hide Move, Matches, Nanos;
    match e
    case Tick(time) =>
      if !Before(time, s.clock) {
        forall q | q in s.processes
          ensures ProcessHolds(Replay(c.rules, s.log).value, time, s.log, q, s.processes[q])
        {
          TimeKeeps(Replay(c.rules, s.log).value, s.clock, time, s.log, q, s.processes[q]);
        }
      }
    case Arrive(_, _) =>
    case Advance(p, choice) =>
      if p in s.processes {
        AdvanceKeeps(c, s, p, choice);
      }
  }

  lemma {:induction false} InvariantHolds(c: Config, start: Instant, events: seq<Event>)
    requires Sql(c)
    ensures Invariant(c, RunAll(c, Initial(start), events))
    decreases |events|
  {
    hide Next, Invariant;
    if events == [] {
      InvariantStarts(c, start);
    } else {
      InvariantHolds(c, start, events[..|events| - 1]);
      NextKeeps(c, RunAll(c, Initial(start), events[..|events| - 1]), events[|events| - 1]);
    }
  }
}
