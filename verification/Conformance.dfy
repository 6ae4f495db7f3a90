/** What the handlers do, in columns and answers: from every reachable state, over all runs, and from a call's arrival to
    its answer when nothing comes in between. */
module Conformance {
  import opened Text
  import opened Timestamp
  import opened Wrappers
  import opened Requests
  import opened Executor
  import opened PamMatcher
  import opened Ledger
  import opened Protocol
  import opened Linearization
  import opened Runs
  import opened Handlers

  /** The request is pending and the reading comes before its expiry, as each store compares them. */
  predicate IsUndecided(backend: Backend, r: Request, at: Instant) {
    && r.status == Pending
    && match backend
       case Sqlite => Less(Format(at), Format(r.expiresAt))
       case Postgres => Nanos(at) < Nanos(r.expiresAt)
       case Memory => Nanos(at) <= Nanos(r.expiresAt)
  }

  lemma UndecidedIsLive(backend: Backend, r: Request, at: Instant)
    ensures IsUndecided(backend, r, at) <==> r.status.Pending? && Live(backend, r, at)
  {
    hide Nanos, Format;
  }

  // ---------------------------------------------------------------- statements, column by column

  /** `UpdateStateIf` of the SQL stores: approvals, denials and failures need a request that is undecided in the sense of
      the store and record who and when; the other targets set the status and need nothing but the expected one. */
  lemma SqlSwapColumns(backend: Backend, t: Table, id: string, expected: Status, target: Status, actor: string, now: Instant)
    requires !backend.Memory?
    ensures var (after, changed) := Swap(backend, t, id, expected, target, actor, now);
            if id !in t || t[id].status != expected then after == t && !changed
            else if target == Approved || target == Denied || target == Failed then
              if IsUndecided(backend, t[id].(status := Pending), now) then
                changed && after == t[id := t[id].(status := target, approvedBy := actor, approvedAt := Some(now))]
              else !changed && after == t
            else changed && after == t[id := t[id].(status := target)]
  {
    hide Nanos, Format;
  }

  /** That of the in-memory store: every target needs a request not past its expiry, and approvals by somebody record who
      and when, while all others forget it. */
  lemma MemorySwapColumns(t: Table, id: string, expected: Status, target: Status, actor: string, now: Instant)
    ensures var (after, changed) := Swap(Memory, t, id, expected, target, actor, now);
            if id !in t || t[id].status != expected || Nanos(t[id].expiresAt) < Nanos(now) then after == t && !changed
            else if target == Approved && actor != "" then
              changed && after == t[id := t[id].(status := target, approvedBy := actor, approvedAt := Some(now))]
            else changed && after == t[id := t[id].(status := target, approvedBy := "", approvedAt := None)]
  {
    hide Nanos, Format;
  }

  /** What `Create` and `Update` store, `Get` reads back: the in-memory store whole; the SQL stores without the result,
      `Create` without the decision, and `Update` with no more than five columns, of an existing row. */
  lemma ReadsBackWhatWasWritten(backend: Backend, t: Table, r: Request)
    ensures var (after, changed) := Insert(backend, t, r);
            if backend.Memory? then changed && Fetch(backend, after, r.id) == Some(r)
            else if r.id in t then !changed && after == t
            else && changed && after[r.id].output == None && after[r.id].exitCode == None
                 && Fetch(backend, after, r.id)
                    == Some(r.(approvedBy := "", approvedAt := None, output := None, exitCode := None))
    ensures var after := Overwrite(backend, t, r);
            if backend.Memory? then Fetch(backend, after, r.id) == Some(r)
            else if r.id !in t then after == t
            else && after[r.id].output == r.output && after[r.id].exitCode == r.exitCode
                 && Fetch(backend, after, r.id)
                    == Some(t[r.id].(status := r.status, approvedBy := r.approvedBy, approvedAt := r.approvedAt,
                                     output := None, exitCode := None))
    ensures forall id :: id != r.id ==>
              && Fetch(backend, Insert(backend, t, r).0, id) == Fetch(backend, t, id)
              && Fetch(backend, Overwrite(backend, t, r), id) == Fetch(backend, t, id)
    ensures Insert(backend, t, r).0.Keys == t.Keys + {r.id}
    ensures Overwrite(backend, t, r).Keys == if backend.Memory? then t.Keys + {r.id} else t.Keys
  {
  }

  /** What the sweep counts. */
  lemma SweepCounts(backend: Backend, t: Table, now: Instant)
    ensures forall id :: id in OverdueIds(backend, t, now) <==>
              id in t && t[id].status == Pending && !IsUndecided(backend, t[id], now)
  {
    hide Nanos, Format;
  }

  // ---------------------------------------------------------------- single steps

  /** Execution: success exactly for a started process that ends cleanly, otherwise the text of what went wrong. */
  lemma LaunchStep(c: Config, s: State, p: ProcessId, choice: Choice)
    requires p in s.processes && s.processes[p].Launching?
    ensures var before, s' := s.processes[p], Next(c, s, Advance(p, choice));
            && s'.table == s.table && s'.processes[p].Recording? && s'.processes[p].call == before.call
            && var argv, verdict := Argv(c.rules.allowlist, before.req.command), s'.processes[p].verdict;
            && (forall stdout :: verdict == Success(stdout) <==> argv.Ok? && choice.exit == Clean(stdout))
            && (argv.Err? ==> verdict == Failure(argv.message))
            && (argv.Ok? && choice.exit.Broken? ==> verdict == Failure(choice.exit.message))
            && (argv.Ok? && choice.exit.Unstarted? ==> verdict == Failure(choice.exit.reason))
  {
    hide Argv;
  }

  /** The row of a request whose execution came to this. */
  function ResultRow(r: Request, verdict: Verdict): Request {
    match verdict
    case Success(stdout) =>
      r.(status := Completed, approvedBy := "", approvedAt := None, output := Some(stdout), exitCode := Some(0))
    case Failure(message) =>
      r.(status := Failed, approvedBy := "", approvedAt := None, output := Some(message), exitCode := Some(1))
  }

  /** From every reachable state, the last step of a v1 approval records the result, and touches nothing else. A store
      that fails keeps the row approved; the answer is the same. */
  lemma ResultIsRecorded(c: Config, start: Instant, events: seq<Event>, p: ProcessId, choice: Choice)
    requires Sql(c)
    requires var s := RunAll(c, Initial(start), events); p in s.processes && s.processes[p].Recording?
    ensures var s := RunAll(c, Initial(start), events);
            var Recording(call, _, verdict) := s.processes[p];
            var s' := Next(c, s, Advance(p, choice));
            && call.id in s.table && s.table[call.id].status == Approved
            && s'.table == (if choice.db.FailsBefore? then s.table
                            else s.table[call.id := ResultRow(s.table[call.id], verdict)])
            && s'.processes[p] ==
               Done(Decide(call), if verdict.Success? then WasCompleted(verdict.output) else ExecutionFailed)
  {
    hide RunAll;
    var s := RunAll(c, Initial(start), events);
    UpdateFindsApproved(c, start, events, p, s.processes[p].call.id);
  }

  /** From every state, with every store, the sweep expires exactly the pending requests that the reading is not before,
      and touches nothing else. So none is left pending whose expiry lies a second or more before the reading. */
  lemma SweepStep(c: Config, s: State, p: ProcessId, choice: Choice)
    requires p in s.processes && s.processes[p].Purging? && !choice.db.FailsBefore?
    ensures var s' := Next(c, s, Advance(p, choice));
            var at := Reading(c.backend, choice.waits, s.processes[p].stamp, s.clock);
            && s'.table.Keys == s.table.Keys && s'.processes[p] == Done(Purge, WasPurged)
            && (forall id :: id in s.table ==>
                  s'.table[id] == if s.table[id].status == Pending && !IsUndecided(c.backend, s.table[id], at)
                                  then s.table[id].(status := Expired) else s.table[id])
            && (forall id :: id in s.table && s'.table[id].status == Pending ==>
                  Nanos(at) < Nanos(s.table[id].expiresAt) + SECOND)
  {
    hide Nanos, Format, Live;
    var at := Reading(c.backend, choice.waits, s.processes[p].stamp, s.clock);
    forall id | id in s.table
      ensures IsUndecided(c.backend, s.table[id], at) <==> s.table[id].status.Pending? && Live(c.backend, s.table[id], at)
      ensures Live(c.backend, s.table[id], at) ==> Nanos(at) < Nanos(s.table[id].expiresAt) + SECOND
    {
      UndecidedIsLive(c.backend, s.table[id], at);
      ExpiryGuards(c.backend, s.table[id], at);
    }
  }

  /** The reading a sweep compares with: SQLite's before its statement, PostgreSQL's then too if it waits. */
  lemma ReadingIs(backend: Backend, waits: bool, stamp: Instant, clock: Instant)
    ensures Reading(Sqlite, waits, stamp, clock) == stamp && Reading(Memory, waits, stamp, clock) == clock
    ensures Reading(Postgres, waits, stamp, clock) == if waits then stamp else clock
  {
  }

  /** From every state, the step by which v1 and PAM mark a request expired does so in the SQL stores if it is pending,
      changes nothing else, and answers that the request has expired. */
  lemma MarkStep(c: Config, s: State, p: ProcessId, choice: Choice)
    requires !c.backend.Memory? && p in s.processes && s.processes[p].Marking?
    ensures var call, s' := s.processes[p].call, Next(c, s, Advance(p, choice));
            && s'.processes[p] == Done(Decide(call), Gone)
            && s'.table == if !choice.db.FailsBefore? && call.id in s.table && s.table[call.id].status == Pending
                           then s.table[call.id := s.table[call.id].(status := Expired)] else s.table
  {
    hide Nanos, Format;
  }

  // ---------------------------------------------------------------- over all runs: what an answer vouches for

  /** The last recorded decision and result of a request. */
  predicate IsDecidedBy(t: Table, id: string, status: Status, actor: string) {
    id in t && t[id].status == status && t[id].approvedBy == actor
  }

  predicate HasResult(t: Table, id: string, status: Status, output: string, exitCode: int) {
    id in t && t[id].status == status && t[id].output == Some(output) && t[id].exitCode == Some(exitCode)
  }

  /** In every reachable state each answer that reports a success is borne out by the table: approvals and denials carry
      the caller's name, completed executions their output. Only the store losing the last statement of v1 can leave an
      executed request approved. And each sort of call reports only its own sort of success. */
  lemma AnswersAreOnRecord(c: Config, start: Instant, events: seq<Event>, p: ProcessId)
    requires Sql(c)
    requires var s := RunAll(c, Initial(start), events); p in s.processes && s.processes[p].Done? && s.processes[p].task.Decide?
    ensures var t := RunAll(c, Initial(start), events).table;
            var Done(Decide(call), reply) := RunAll(c, Initial(start), events).processes[p];
            match call
            case V1(Approve, id, userId, _) =>
              && !reply.PamApproved? && !reply.WasDenied?
              && (reply.WasCompleted? ==>
                    HasResult(t, id, Completed, reply.output, 0) || IsDecidedBy(t, id, Approved, userId))
              && (reply.ExecutionFailed? ==>
                    (id in t && t[id].status == Failed && t[id].exitCode == Some(1)) || IsDecidedBy(t, id, Approved, userId))
            case V1(Deny, id, userId, _) =>
              && !reply.PamApproved? && !reply.WasCompleted? && !reply.ExecutionFailed?
              && (reply.WasDenied? ==> IsDecidedBy(t, id, Denied, userId))
            case Pam(Approve, id, sender) =>
              && !reply.WasDenied? && !reply.WasCompleted? && !reply.ExecutionFailed?
              && (reply.PamApproved? ==> IsDecidedBy(t, id, Approved, "tg:" + sender))
            case Pam(Deny, id, sender) =>
              && !reply.PamApproved? && !reply.WasCompleted? && !reply.ExecutionFailed?
              && (reply.WasDenied? ==> IsDecidedBy(t, id, Denied, "tg:" + sender))
            case Telegram(id, username, sender) =>
              && !reply.PamApproved? && !reply.WasCompleted? && !reply.ExecutionFailed?
              && (reply.WasDenied? ==> IsDecidedBy(t, id, Denied, if username == "" then "tg:" + sender else username))
  {
    hide RunAll;
    var s := RunAll(c, Initial(start), events);
    var Done(Decide(call), reply) := s.processes[p];
    if reply.PamApproved? || reply.WasDenied? || reply.WasCompleted? || reply.ExecutionFailed? {
      var k := JustifyingEntry(c, start, events, p);
      EntriesAreAttributed(c, start, events);
      if s.log[k].Grant? {
        assert call.Pam?;
        PamApprovalsStay(c, start, events, k);
      } else if s.log[k].Refuse? {
        RefusalsStay(c, start, events, k);
      } else {
        ExecutionsShow(c, start, events, k);
      }
    }
  }

  lemma JustifyingEntry(c: Config, start: Instant, events: seq<Event>, p: ProcessId) returns (k: nat)
    requires Sql(c)
    requires var s := RunAll(c, Initial(start), events); p in s.processes && s.processes[p].Done? && s.processes[p].task.Decide?
    requires var reply := RunAll(c, Initial(start), events).processes[p].reply;
             reply.PamApproved? || reply.WasDenied? || reply.WasCompleted? || reply.ExecutionFailed?
    ensures var s := RunAll(c, Initial(start), events);
            k < |s.log| && Justifies(s.log[k], p, s.processes[p].task.call, s.processes[p].reply)
  {
    hide RunAll, Matches, Nanos;
    Linearizable(c, start, events);
    var s := RunAll(c, Initial(start), events);
    k :| 0 <= k < |s.log| && Justifies(s.log[k], p, s.processes[p].task.call, s.processes[p].reply);
  }

  /** Event `m` is the first step of process `p`, and PAM lets the caller through. */
  predicate IsAdmittedBy(c: Config, start: Instant, events: seq<Event>, m: nat, p: ProcessId) {
    && m < |events| && events[m].Advance? && events[m].p == p && events[m].choice.gate == Admitted
    && var s := RunAll(c, Initial(start), events[..m]); p in s.processes && s.processes[p].Starting?
  }

  predicate IsPamTask(task: Task) {
    (task.Decide? && task.call.Pam?) || (task.File? && task.viaPam)
  }

  /** The process is past its first step with more to do, or has made an entry. */
  predicate IsInvolved(s: State, p: ProcessId) {
    && p in s.processes
    && ((!s.processes[p].Starting? && !s.processes[p].Done?) || exists k :: 0 <= k < |s.log| && s.log[k].p == p)
  }

  /** Over all runs, nothing comes of a PAM call, be it a filing, a look, a decision or a mark, unless PAM let its caller
      through at its first step. */
  lemma {:induction false} PamActsForTheAdmitted(c: Config, start: Instant, events: seq<Event>, p: ProcessId)
    returns (m: nat)
    requires var s := RunAll(c, Initial(start), events); IsInvolved(s, p) && IsPamTask(TaskOf(s.processes[p]))
    ensures IsAdmittedBy(c, start, events, m, p)
    decreases |events|
  {
    hide Move, TaskOf, Nanos;
    var past, e := events[..|events| - 1], events[|events| - 1];
    var s := RunAll(c, Initial(start), past);
    EntriesAreAttributed(c, start, past);
    StepAppends(c, s, e);
    StepKeepsTask(c, s, e, p);
    if IsInvolved(s, p) {
      m := PamActsForTheAdmitted(c, start, past, p);
      assert past[..m] == events[..m];
    } else {
      m := |past|;
      FirstStepIsAdmitted(c, s, e, p);
    }
  }

  lemma StepKeepsTask(c: Config, s: State, e: Event, p: ProcessId)
    requires Attributed(c, s)
    ensures p in s.processes ==> p in Next(c, s, e).processes && TaskOf(Next(c, s, e).processes[p]) == TaskOf(s.processes[p])
  {
    hide Move, TaskOf, WellPlaced, Serves, Nanos;
    if e.Advance? && e.p in s.processes {
      MoveServes(c, s.table, s.clock, e.p, s.processes[e.p], e.choice);
    }
  }

  lemma FirstStepIsAdmitted(c: Config, s: State, e: Event, p: ProcessId)
    requires !IsInvolved(s, p) && IsInvolved(Next(c, s, e), p) && IsPamTask(TaskOf(Next(c, s, e).processes[p]))
    requires forall k :: 0 <= k < |s.log| ==> s.log[k].p in s.processes
    ensures e.Advance? && e.p == p && p in s.processes && s.processes[p].Starting? && e.choice.gate == Admitted
  {
    hide Fetch, Swap, Overwrite, Insert, Sweep, OverdueIds, Argv, Outcomes, FinalRecord, Acceptable, Nanos;
    StepAppends(c, s, e);
  }

  /** A denial is on record for good. */
  lemma RefusalsStay(c: Config, start: Instant, events: seq<Event>, k: nat)
    requires Sql(c)
    requires var log := RunAll(c, Initial(start), events).log; k < |log| && log[k].Refuse?
    ensures var s := RunAll(c, Initial(start), events); IsDecidedBy(s.table, s.log[k].id, Denied, s.log[k].actor)
  {
    hide RunAll, AnswerHolds, Nanos;
    Linearizable(c, start, events);
    RefusalLasts(c.rules, RunAll(c, Initial(start), events).log, k);
  }

  /** An execution shows in the table: as its result, or as the approval when that was not recorded. */
  lemma ExecutionsShow(c: Config, start: Instant, events: seq<Event>, k: nat)
    requires Sql(c)
    requires var log := RunAll(c, Initial(start), events).log; k < |log| && log[k].Run?
    ensures var s := RunAll(c, Initial(start), events);
            var Run(p, id, _, verdict) := s.log[k];
            && p in s.processes && TaskOf(s.processes[p]).Decide?
            && var call := TaskOf(s.processes[p]).call;
            && call.V1? && call.action == Approve
            && (IsDecidedBy(s.table, id, Approved, call.userId)
                || (if verdict.Success? then HasResult(s.table, id, Completed, verdict.output, 0)
                    else HasResult(s.table, id, Failed, verdict.message, 1)))
  {
    hide RunAll, AnswerHolds, Nanos, Argv;
    var s := RunAll(c, Initial(start), events);
    var i, j := ExecutionIsAuthorized(c, start, events, k);
    Linearizable(c, start, events);
    RunLasts(c.rules, s.log, k);
    GrantLasts(c.rules, s.log, j);
    ActorLasts(c.rules, s.log, j);
  }

  // ---------------------------------------------------------------- undisturbed calls: the first answers

  /** The call, undisturbed, ends with this table and this answer. */
  predicate Ends(c: Config, t: Table, p: ProcessId, task: Task, moments: seq<Moment>, after: Table, reply: Reply) {
    Solo(c, t, p, Starting(task), moments) == (after, Done(task, reply))
  }

  /** A request, in whatever state, that is not past its expiry at the check. */
  predicate IsCurrent(t: Table, id: string, moments: seq<Moment>)
    requires |moments| >= 2
  {
    id in t && Nanos(moments[1].clock) <= Nanos(t[id].expiresAt)
  }

  lemma CurrentIsThere(t: Table, id: string, moments: seq<Moment>)
    requires |moments| >= 2 && IsCurrent(t, id, moments)
    ensures id in t
  {
  }

  predicate IsOverdue(t: Table, id: string, moments: seq<Moment>)
    requires |moments| >= 2
  {
    id in t && Nanos(t[id].expiresAt) < Nanos(moments[1].clock)
  }

  /** The table after marking a request expired, which only changes a pending one. */
  function WithMark(t: Table, id: string, db: Outcome): Table
    requires id in t
  {
    if t[id].status == Pending then With(t, id, t[id].(status := Expired), db) else t
  }

  /** The table after a statement on one request, of which the store may have told or not. */
  function With(t: Table, id: string, r: Request, db: Outcome): Table {
    if db.FailsBefore? then t else t[id := r]
  }

  lemma V1FirstAnswers(c: Config, t: Table, p: ProcessId, action: Action, id: string, userId: string, token: string,
                       moments: seq<Moment>)
    requires !c.backend.Memory? && |moments| >= 3
    ensures var task := Decide(V1(action, id, userId, token));
            && (!moments[0].choice.db.Works? ==> Ends(c, t, p, task, moments, t, StoreFailure))
            && (moments[0].choice.db.Works? ==>
                  && (id !in t ==> Ends(c, t, p, task, moments, t, NotFound))
                  && (id in t && t[id].status != Pending ==> Ends(c, t, p, task, moments, t, AlreadyIs(t[id].status)))
                  && (IsOverdue(t, id, moments) && t[id].status == Pending ==>
                        Ends(c, t, p, task, moments, With(t, id, t[id].(status := Expired), moments[2].choice.db), Gone))
                  && (IsCurrent(t, id, moments) && t[id].status == Pending
                      && (userId == "" || (action == Approve && token == "")) ==>
                        Ends(c, t, p, task, moments, t, BadRequest)))
  {
    hide Solo, Nanos, Format;
    var call := V1(action, id, userId, token);
    assert moments[0..] == moments;
    SoloStep(c, t, p, Starting(Decide(call)), moments, 0);
    if id in t {
      var req := t[id].(output := None, exitCode := None);
      SoloStep(c, t, p, Checking(call, req), moments, 1);
      SoloStep(c, t, p, Marking(call, req), moments, 2);
    }
  }

  lemma PamFirstAnswers(c: Config, t: Table, p: ProcessId, action: Action, id: string, sender: string, moments: seq<Moment>)
    requires !c.backend.Memory? && |moments| >= 3
    ensures var task, gate := Decide(Call.Pam(action, id, sender)), moments[0].choice.gate;
            && (gate == NoToken ==> Ends(c, t, p, task, moments, t, BadRequest))
            && (gate == NoSender || gate == NoDevice ==> Ends(c, t, p, task, moments, t, Unauthorized))
            && (gate == NotListed ==> Ends(c, t, p, task, moments, t, Forbidden))
            && (gate == NotRenewed ==> Ends(c, t, p, task, moments, t, StoreFailure))
            && (gate == Admitted && !moments[0].choice.db.Works? ==> Ends(c, t, p, task, moments, t, StoreFailure))
            && (gate == Admitted && moments[0].choice.db.Works? ==>
                  && (id !in t ==> Ends(c, t, p, task, moments, t, NotFound))
                  && (IsOverdue(t, id, moments) ==>
                        Ends(c, t, p, task, moments, WithMark(t, id, moments[2].choice.db), Gone)))
  {
    hide Solo, Nanos, Format;
    var call := Call.Pam(action, id, sender);
    assert moments[0..] == moments;
    SoloStep(c, t, p, Starting(Decide(call)), moments, 0);
    if id in t {
      var req := t[id].(output := None, exitCode := None);
      SoloStep(c, t, p, Checking(call, req), moments, 1);
      SoloStep(c, t, p, Marking(call, req), moments, 2);
    }
  }

  /** Telegram leaves an overdue request as it is. */
  lemma TelegramFirstAnswers(c: Config, t: Table, p: ProcessId, id: string, username: string, sender: string,
                             moments: seq<Moment>)
    requires !c.backend.Memory? && |moments| >= 2
    ensures var task := Decide(Telegram(id, username, sender));
            && (!moments[0].choice.db.Works? || id !in t ==> Ends(c, t, p, task, moments, t, Unavailable))
            && (moments[0].choice.db.Works? && IsOverdue(t, id, moments) ==> Ends(c, t, p, task, moments, t, Gone))
  {
    hide Solo, Nanos, Format;
    var call := Telegram(id, username, sender);
    assert moments[0..] == moments;
    SoloStep(c, t, p, Starting(Decide(call)), moments, 0);
    if id in t {
      SoloStep(c, t, p, Checking(call, t[id].(output := None, exitCode := None)), moments, 1);
    }
  }

  // ---------------------------------------------------------------- undisturbed calls: the decision

  /** The reading the deciding statement compares with. */
  function ReadAt(backend: Backend, moments: seq<Moment>): Instant
    requires |moments| >= 4
  {
    if backend.Sqlite? || moments[3].choice.waits then moments[2].clock else moments[3].clock
  }

  /** From arrival to the deciding statement, for every sort of call. */
  lemma Decision(c: Config, t: Table, p: ProcessId, call: Call, status: Status, actor: string, moments: seq<Moment>)
    requires !c.backend.Memory? && |moments| >= 4 && moments[0].choice.db.Works? && IsCurrent(t, call.id, moments)
    requires call.V1? ==> t[call.id].status == Pending
    requires (call.Pam? ==> moments[0].choice.gate.Admitted?) && call.Complete()
    requires status == (if call.Approving() then Approved else Denied) && actor == call.Actor()
    ensures var at, db := ReadAt(c.backend, moments), moments[3].choice.db;
            var won := IsUndecided(c.backend, t[call.id], at);
            var row := t[call.id].(status := status, approvedBy := actor, approvedAt := Some(at));
            Solo(c, t, p, Starting(Decide(call)), moments) ==
            Solo(c, if won then With(t, call.id, row, db) else t, p,
                 if !db.Works? then Done(Decide(call), StoreFailure)
                 else if !won then Done(Decide(call), Conflict)
                 else if !call.Approving() then Done(Decide(call), WasDenied)
                 else if call.V1? then Launching(call, t[call.id].(output := None, exitCode := None))
                 else Done(Decide(call), PamApproved),
                 moments[4..])
  {
    hide Solo, Nanos, Format, Live;
    var req := t[call.id].(output := None, exitCode := None);
    assert moments[0..] == moments;
    SoloStep(c, t, p, Starting(Decide(call)), moments, 0);
    SoloStep(c, t, p, Checking(call, req), moments, 1);
    SoloStep(c, t, p, Stamping(call, req), moments, 2);
    SoloStep(c, t, p, Swapping(call, req, moments[2].clock), moments, 3);
    UndecidedIsLive(c.backend, t[call.id], ReadAt(c.backend, moments));
  }

  /** The row and the answer of an undisturbed decision that is no v1 approval. */
  predicate DecidesAs(c: Config, t: Table, p: ProcessId, task: Task, moments: seq<Moment>, id: string,
                      status: Status, actor: string, success: Reply)
    requires |moments| >= 4 && id in t
  {
    var at, db := ReadAt(c.backend, moments), moments[3].choice.db;
    var row := t[id].(status := status, approvedBy := actor, approvedAt := Some(at));
    if IsUndecided(c.backend, t[id], at) then
      Ends(c, t, p, task, moments, With(t, id, row, db), if db.Works? then success else StoreFailure)
    else
      Ends(c, t, p, task, moments, t, if db.Works? then Conflict else StoreFailure)
  }

  /** v1 denies: the request is denied by the caller and the answer says so, unless the reading comes too late. */
  lemma V1Denies(c: Config, t: Table, p: ProcessId, id: string, userId: string, token: string, moments: seq<Moment>)
    requires !c.backend.Memory? && |moments| >= 4 && moments[0].choice.db.Works? && IsCurrent(t, id, moments)
    requires t[id].status == Pending && userId != ""
    ensures DecidesAs(c, t, p, Decide(V1(Deny, id, userId, token)), moments, id, Denied, userId, WasDenied)
  {
    hide Solo, IsUndecided, IsCurrent;
    DecisionStands(c, t, p, V1(Deny, id, userId, token), Denied, userId, moments);
  }

  /** PAM approves, and that is all it does. */
  lemma PamApproves(c: Config, t: Table, p: ProcessId, id: string, sender: string, moments: seq<Moment>)
    requires !c.backend.Memory? && |moments| >= 4 && moments[0].choice.db.Works? && moments[0].choice.gate == Admitted
    requires IsCurrent(t, id, moments)
    ensures DecidesAs(c, t, p, Decide(Call.Pam(Approve, id, sender)), moments, id, Approved, "tg:" + sender, PamApproved)
  {
    hide Solo, IsUndecided, IsCurrent;
    DecisionStands(c, t, p, Call.Pam(Approve, id, sender), Approved, "tg:" + sender, moments);
  }

  lemma PamDenies(c: Config, t: Table, p: ProcessId, id: string, sender: string, moments: seq<Moment>)
    requires !c.backend.Memory? && |moments| >= 4 && moments[0].choice.db.Works? && moments[0].choice.gate == Admitted
    requires IsCurrent(t, id, moments)
    ensures DecidesAs(c, t, p, Decide(Call.Pam(Deny, id, sender)), moments, id, Denied, "tg:" + sender, WasDenied)
  {
    hide Solo, IsUndecided, IsCurrent;
    DecisionStands(c, t, p, Call.Pam(Deny, id, sender), Denied, "tg:" + sender, moments);
  }

  /** Telegram denies, under the sender's name or number. */
  lemma TelegramDenies(c: Config, t: Table, p: ProcessId, id: string, username: string, sender: string,
                       moments: seq<Moment>)
    requires !c.backend.Memory? && |moments| >= 4 && moments[0].choice.db.Works? && IsCurrent(t, id, moments)
    ensures DecidesAs(c, t, p, Decide(Telegram(id, username, sender)), moments, id, Denied,
                      if username == "" then "tg:" + sender else username, WasDenied)
  {
    hide Solo, IsUndecided, IsCurrent;
    DecisionStands(c, t, p, Telegram(id, username, sender), Denied, if username == "" then "tg:" + sender else username,
                   moments);
  }

  lemma DecisionStands(c: Config, t: Table, p: ProcessId, call: Call, status: Status, actor: string, moments: seq<Moment>)
    requires !c.backend.Memory? && |moments| >= 4 && moments[0].choice.db.Works? && IsCurrent(t, call.id, moments)
    requires call.V1? ==> t[call.id].status == Pending
    requires (call.Pam? ==> moments[0].choice.gate.Admitted?) && call.Complete() && !(call.V1? && call.Approving())
    requires status == (if call.Approving() then Approved else Denied) && actor == call.Actor()
    ensures DecidesAs(c, t, p, Decide(call), moments, call.id, status, actor, if call.Approving() then PamApproved else WasDenied)
  {
    hide Solo, IsUndecided, IsCurrent;
    CurrentIsThere(t, call.id, moments);
    var at, db := ReadAt(c.backend, moments), moments[3].choice.db;
    var row := t[call.id].(status := status, approvedBy := actor, approvedAt := Some(at));
    Decision(c, t, p, call, status, actor, moments);
    var after := if IsUndecided(c.backend, t[call.id], at) then With(t, call.id, row, db) else t;
    var reply := if !db.Works? then StoreFailure
                 else if !IsUndecided(c.backend, t[call.id], at) then Conflict
                 else if call.Approving() then PamApproved else WasDenied;
    DoneStays(c, after, p, Decide(call), reply, moments[4..]);
  }

  // ---------------------------------------------------------------- undisturbed v1 approvals, from arrival to answer

  /** A v1 approval that loses, or whose store fails: nothing is executed. */
  lemma V1ApprovalFails(c: Config, t: Table, p: ProcessId, id: string, userId: string, token: string, moments: seq<Moment>)
    requires !c.backend.Memory? && |moments| >= 4 && moments[0].choice.db.Works? && IsCurrent(t, id, moments)
    requires t[id].status == Pending
    requires userId != "" && token != ""
    requires var at := ReadAt(c.backend, moments); !moments[3].choice.db.Works? || !IsUndecided(c.backend, t[id], at)
    ensures var at, task := ReadAt(c.backend, moments), Decide(V1(Approve, id, userId, token));
            var row := t[id].(status := Approved, approvedBy := userId, approvedAt := Some(at));
            if IsUndecided(c.backend, t[id], at) then
              Ends(c, t, p, task, moments, With(t, id, row, moments[3].choice.db), StoreFailure)
            else
              Ends(c, t, p, task, moments, t, if moments[3].choice.db.Works? then Conflict else StoreFailure)
  {
    hide Solo, IsUndecided, IsCurrent;
    CurrentIsThere(t, id, moments);
    var call := V1(Approve, id, userId, token);
    var at, db := ReadAt(c.backend, moments), moments[3].choice.db;
    var row := t[id].(status := Approved, approvedBy := userId, approvedAt := Some(at));
    Decision(c, t, p, call, Approved, userId, moments);
    var after := if IsUndecided(c.backend, t[id], at) then With(t, id, row, db) else t;
    DoneStays(c, after, p, Decide(call), if db.Works? then Conflict else StoreFailure, moments[4..]);
  }

  /** A v1 approval that wins: the command is executed, its result recorded, and the answer is the result. It is Completed
      exactly when the argument vector stands and the process ends cleanly. When the last statement fails the request stays
      approved, and the answer is the same. */
  lemma V1ApprovalExecutes(c: Config, t: Table, p: ProcessId, id: string, userId: string, token: string, moments: seq<Moment>)
    requires !c.backend.Memory? && |moments| == 6 && moments[0].choice.db.Works? && IsCurrent(t, id, moments)
    requires t[id].status == Pending
    requires userId != "" && token != "" && moments[3].choice.db.Works?
    requires IsUndecided(c.backend, t[id], ReadAt(c.backend, moments))
    ensures var task, at := Decide(V1(Approve, id, userId, token)), ReadAt(c.backend, moments);
            var approved := t[id := t[id].(status := Approved, approvedBy := userId, approvedAt := Some(at))];
            var argv, exit := Argv(c.rules.allowlist, t[id].command), moments[4].choice.exit;
            var row := t[id].(approvedBy := "", approvedAt := None);
            && (argv.Ok? && exit.Clean? ==>
                  Ends(c, t, p, task, moments,
                       With(approved, id, row.(status := Completed, output := Some(exit.stdout), exitCode := Some(0)),
                            moments[5].choice.db),
                       WasCompleted(exit.stdout)))
            && (argv.Err? || !exit.Clean? ==>
                  var message := if argv.Err? then argv.message else if exit.Broken? then exit.message else exit.reason;
                  Ends(c, t, p, task, moments,
                       With(approved, id, row.(status := Failed, output := Some(message), exitCode := Some(1)),
                            moments[5].choice.db),
                       ExecutionFailed))
  {
    hide Solo, IsUndecided, IsCurrent, Argv;
    CurrentIsThere(t, id, moments);
    var call := V1(Approve, id, userId, token);
    var at := ReadAt(c.backend, moments);
    var approved := t[id := t[id].(status := Approved, approvedBy := userId, approvedAt := Some(at))];
    Decision(c, t, p, call, Approved, userId, moments);
    var req := t[id].(output := None, exitCode := None);
    SoloStep(c, approved, p, Launching(call, req), moments, 4);
    var verdict := Outcomes(Argv(c.rules.allowlist, req.command), moments[4].choice.exit);
    SoloStep(c, approved, p, Recording(call, req, verdict), moments, 5);
  }

  // ---------------------------------------------------------------- undisturbed creation and cleanup

  /** What a create handler answers, and what it files: the checks in their order, and a new row with four columns NULL. */
  lemma CreateAnswers(c: Config, t: Table, p: ProcessId, draft: Request, viaPam: bool, moment: Moment)
    requires !c.backend.Memory?
    ensures var task, gate, db := File(draft, viaPam), moment.choice.gate, moment.choice.db;
            var allowed := if viaPam then PamAllowed(c.pamAllowlist, draft.command) else Allowed(c.rules.allowlist, draft.command);
            var row := draft.(approvedBy := "", approvedAt := None, output := None, exitCode := None);
            if viaPam && gate == NoToken then Ends(c, t, p, task, [moment], t, BadRequest)
            else if viaPam && (gate == NoSender || gate == NoDevice) then Ends(c, t, p, task, [moment], t, Unauthorized)
            else if viaPam && gate == NotListed then Ends(c, t, p, task, [moment], t, Forbidden)
            else if viaPam && gate == NotRenewed then Ends(c, t, p, task, [moment], t, StoreFailure)
            else if draft.command == "" then Ends(c, t, p, task, [moment], t, BadRequest)
            else if !viaPam && c.requireReason && draft.reason == "" then Ends(c, t, p, task, [moment], t, BadRequest)
            else if !allowed then Ends(c, t, p, task, [moment], t, Forbidden)
            else if draft.id in t then Ends(c, t, p, task, [moment], t, StoreFailure)
            else Ends(c, t, p, task, [moment], With(t, draft.id, row, db), if db.Works? then WasFiled else StoreFailure)
  {
    hide Solo, Allowed, PamAllowed;
    assert [moment][0..] == [moment];
    SoloStep(c, t, p, Starting(File(draft, viaPam)), [moment], 0);
  }

  /** The cleanup leaves every overdue request expired and every other row as it was. */
  lemma CleanupExpires(c: Config, t: Table, p: ProcessId, moments: seq<Moment>) returns (after: Table)
    requires |moments| == 2 && !moments[1].choice.db.FailsBefore?
    ensures Ends(c, t, p, Purge, moments, after, WasPurged) && after.Keys == t.Keys
    ensures var at := if c.backend.Sqlite? || (c.backend.Postgres? && moments[1].choice.waits) then moments[0].clock
                      else moments[1].clock;
            forall id :: id in t ==>
              after[id] == if t[id].status == Pending && !IsUndecided(c.backend, t[id], at)
                           then t[id].(status := Expired) else t[id]
  {
    hide Solo, Nanos, Format, IsUndecided;
    assert moments[0..] == moments;
    SoloStep(c, t, p, Starting(Purge), moments, 0);
    SoloStep(c, t, p, Purging(moments[0].clock), moments, 1);
    var s := State(t, moments[1].clock, map[p := Purging(moments[0].clock)], []);
    SweepStep(c, s, p, moments[1].choice);
    after := Next(c, s, Advance(p, moments[1].choice)).table;
  }
}
