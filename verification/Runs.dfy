/** What holds in every run of the handlers over a SQL store, whatever the interleaving. */
module Runs {
  import opened Timestamp
  import opened Wrappers
  import opened Requests
  import opened Executor
  import opened PamMatcher
  import SubmissionCheck
  import opened Ledger
  import opened Protocol
  import opened Linearization

  // ---------------------------------------------------------------- linearizability

  /** The log of atomic actions is legal, produces the table, and accounts for every answer that was given. */
  lemma Linearizable(c: Config, start: Instant, events: seq<Event>)
    requires Sql(c)
    ensures var s := RunAll(c, Initial(start), events);
            && Legal(c.rules, s.log) && Matches(s.table, Replay(c.rules, s.log).value)
            && forall p :: p in s.processes && s.processes[p].Done? ==>
                 AnswerHolds(Replay(c.rules, s.log).value, s.clock, s.log, p, s.processes[p].task, s.processes[p].reply)
  {
    hide AnswerHolds, Matches, Nanos;
    InvariantHolds(c, start, events);
  }

  lemma RunAppend(c: Config, s: State, before: seq<Event>, after: seq<Event>)
    ensures RunAll(c, s, before + after) == RunAll(c, RunAll(c, s, before), after)
    decreases |after|
  {
    hide Next;
    if after == [] {
      assert before + after == before;
    } else {
      var events := before + after;
      assert events[..|events| - 1] == before + after[..|after| - 1];
      RunAppend(c, s, before, after[..|after| - 1]);
    }
  }

  /** A step appends at most one entry, and that by the process taking it, which has arrived and is not done. */
  lemma StepAppends(c: Config, s: State, e: Event)
    ensures var s' := Next(c, s, e);
            && (s'.log == s.log
                || (&& e.Advance? && e.p in s.processes && !s.processes[e.p].Done?
                    && |s'.log| == |s.log| + 1 && s.log <= s'.log && s'.log[|s.log|].p == e.p))
            && s.processes.Keys <= s'.processes.Keys
            && forall p :: p in s.processes && s.processes[p].Done? ==> s'.processes[p] == s.processes[p]
  {
    hide Fetch, Swap, Overwrite, Insert, Sweep, OverdueIds, Argv, Outcomes, FinalRecord, Acceptable, Nanos;
  }

  /** Every entry is made while its process is at work: none before it arrives, none after it answers. */
  lemma {:induction false} EntriesWithinCalls(c: Config, s: State, events: seq<Event>)
    requires forall k :: 0 <= k < |s.log| ==> s.log[k].p in s.processes
    ensures var s' := RunAll(c, s, events);
            && s.log <= s'.log && s.processes.Keys <= s'.processes.Keys
            && (forall k :: 0 <= k < |s'.log| ==> s'.log[k].p in s'.processes)
            && (forall p :: p in s.processes && s.processes[p].Done? ==>
                  p in s'.processes && s'.processes[p] == s.processes[p])
            && (forall k :: |s.log| <= k < |s'.log| ==> s'.log[k].p in s.processes ==> !s.processes[s'.log[k].p].Done?)
    decreases |events|
  {
    hide Next;
    if events == [] {
    } else {
      var mid := RunAll(c, s, events[..|events| - 1]);
      EntriesWithinCalls(c, s, events[..|events| - 1]);
      StepAppends(c, mid, events[|events| - 1]);
    }
  }

  /** The order of the log respects real time: when `p` had answered before `q` arrived, `p`'s entries come first. */
  lemma RealTimeOrder(c: Config, start: Instant, before: seq<Event>, after: seq<Event>, p: ProcessId, q: ProcessId)
    requires var s := RunAll(c, Initial(start), before); p in s.processes && s.processes[p].Done? && q !in s.processes
    ensures var log := RunAll(c, Initial(start), before + after).log;
            forall j, k :: 0 <= j < |log| && 0 <= k < |log| && log[j].p == p && log[k].p == q ==> j < k
  {
    hide Next;
    RunAppend(c, Initial(start), before, after);
    EntriesWithinCalls(c, Initial(start), before);
    EntriesWithinCalls(c, RunAll(c, Initial(start), before), after);
  }

  /** The entries by which a call takes effect on a request that others may be deciding too. */
  predicate Settles(e: Entry, p: ProcessId) {
    e.p == p && (e.Grant? || e.Refuse? || e.Reject? || e.Lapse?)
  }

  function Settlements(log: seq<Entry>, p: ProcessId): nat {
    if log == [] then 0
    else Settlements(log[..|log| - 1], p) + if Settles(log[|log| - 1], p) then 1 else 0
  }

  /** Whether the process may still settle. */
  function Budget(s: State, p: ProcessId): nat {
    if p in s.processes then Left(s.processes[p]) else 1
  }

  function Left(process: Process): nat {
    if process.Launching? || process.Recording? || process.Done? then 0 else 1
  }

  lemma MoveSpends(c: Config, t: Table, clock: Instant, p: ProcessId, process: Process, choice: Choice)
    ensures var effect := Move(c, t, clock, p, process, choice);
            && (effect.entry.Some? ==> effect.entry.value.p == p)
            && Left(effect.process) + (if effect.entry.Some? && Settles(effect.entry.value, p) then 1 else 0) <= Left(process)
  {
    hide Fetch, Swap, Overwrite, Insert, Sweep, OverdueIds, Argv, Outcomes, FinalRecord, Acceptable, Nanos;
  }

  lemma StepSpendsBudget(c: Config, s: State, e: Event, p: ProcessId)
    ensures Settlements(Next(c, s, e).log, p) + Budget(Next(c, s, e), p) <= Settlements(s.log, p) + Budget(s, p)
  {
    hide Move, Nanos;
    if e.Advance? && e.p in s.processes {
      MoveSpends(c, s.table, s.clock, e.p, s.processes[e.p], e.choice);
      var log := Next(c, s, e).log;
      if log != s.log {
        assert log[..|log| - 1] == s.log;
      }
    }
  }

  /** Each call takes effect at most once, at a single point between its arrival and its answer. */
  lemma {:induction false} OneEffectPerCall(c: Config, start: Instant, events: seq<Event>, p: ProcessId)
    ensures var s := RunAll(c, Initial(start), events); Settlements(s.log, p) + Budget(s, p) <= 1
    decreases |events|
  {
    hide Next, Budget;
    if events == [] {
      BudgetStarts(start, p);
    } else {
      OneEffectPerCall(c, start, events[..|events| - 1], p);
      StepSpendsBudget(c, RunAll(c, Initial(start), events[..|events| - 1]), events[|events| - 1], p);
    }
  }

  lemma BudgetStarts(start: Instant, p: ProcessId)
    ensures Budget(Initial(start), p) == 1
  {
  }

  // ---------------------------------------------------------------- who makes which entry

  function TaskOf(process: Process): Task {
    match process
    case Starting(task) => task
    case Done(task, _) => task
    case Purging(_) => Purge
    case _ => Decide(process.call)
  }

  /** The task that an entry belongs to; a filing has passed the check of its handler. */
  predicate Serves(c: Config, e: Entry, task: Task) {
    match e
    case Submit(_, id, command, expires) =>
      && task.File? && id == task.draft.id && command == task.draft.command && expires == task.draft.expiresAt
      && command != "" && Acceptable(c, task.draft, task.viaPam)
      && (!task.viaPam && c.requireReason ==> task.draft.reason != "")
    case LapseAll(_, _, _, _) => task.Purge?
    case Grant(_, id, actor, _, _) =>
      && task.Decide? && id == task.call.id && task.call.Approving() && actor == task.call.Actor()
      && NamesItsCaller(task.call)
    case Refuse(_, id, actor, _, _) =>
      && task.Decide? && id == task.call.id && !task.call.Approving() && actor == task.call.Actor()
      && NamesItsCaller(task.call)
    case Run(_, id, _, _) => task.Decide? && id == task.call.id && task.call.V1? && task.call.Approving()
    case Finish(_, id) => task.Decide? && id == task.call.id && task.call.V1? && task.call.Approving()
    case Look(_, id, _) => task.Decide? && id == task.call.id
    case Reject(_, id, _, _) => task.Decide? && id == task.call.id
    case Lapse(_, id, _) => task.Decide? && id == task.call.id
  }

  /** v1 decides for a named caller only, and approves only with a token. */
  predicate NamesItsCaller(call: Call) {
    call.V1? ==> call.userId != "" && (call.action == Approve ==> call.token != "")
  }

  /** Only a v1 approval gets as far as executing, and only PAM answers that it approved. */
  predicate WellPlaced(process: Process) {
    && (process.Launching? || process.Recording? ==> process.call.V1? && process.call.Approving())
    && (process.Stamping? || process.Swapping? ==> NamesItsCaller(process.call))
    && (process.Done? && process.task.Decide? && process.reply.PamApproved? ==> process.task.call.Pam?)
  }

  predicate Attributed(c: Config, s: State) {
    && (forall p :: p in s.processes ==> WellPlaced(s.processes[p]))
    && (forall k :: 0 <= k < |s.log| ==> s.log[k].p in s.processes && Serves(c, s.log[k], TaskOf(s.processes[s.log[k].p])))
  }

  lemma MoveServes(c: Config, t: Table, clock: Instant, p: ProcessId, process: Process, choice: Choice)
    requires WellPlaced(process)
    ensures var effect := Move(c, t, clock, p, process, choice);
            && TaskOf(effect.process) == TaskOf(process) && WellPlaced(effect.process)
            && (effect.entry.Some? ==> effect.entry.value.p == p && Serves(c, effect.entry.value, TaskOf(process)))
  {
    hide Move, WellPlaced, Serves, TaskOf;
    if process.Starting? {
      StartServes(c, t, clock, p, process, choice);
    } else {
      LaterServes(c, t, clock, p, process, choice);
    }
  }

  lemma StartServes(c: Config, t: Table, clock: Instant, p: ProcessId, process: Process, choice: Choice)
    requires process.Starting?
    ensures var effect := Move(c, t, clock, p, process, choice);
            && TaskOf(effect.process) == TaskOf(process) && WellPlaced(effect.process)
            && (effect.entry.Some? ==> effect.entry.value.p == p && Serves(c, effect.entry.value, TaskOf(process)))
  {
    hide Fetch, Swap, Overwrite, Insert, Sweep, OverdueIds, Argv, Outcomes, FinalRecord, Acceptable, Nanos;
  }

  lemma LaterServes(c: Config, t: Table, clock: Instant, p: ProcessId, process: Process, choice: Choice)
    requires WellPlaced(process) && !process.Starting?
    ensures var effect := Move(c, t, clock, p, process, choice);
            && TaskOf(effect.process) == TaskOf(process) && WellPlaced(effect.process)
            && (effect.entry.Some? ==> effect.entry.value.p == p && Serves(c, effect.entry.value, TaskOf(process)))
  {
    hide Fetch, Swap, Overwrite, Insert, Sweep, OverdueIds, Argv, Outcomes, FinalRecord, Acceptable, Nanos;
  }

  lemma {:induction false} EntriesAreAttributed(c: Config, start: Instant, events: seq<Event>)
    ensures Attributed(c, RunAll(c, Initial(start), events))
    decreases |events|
  {
    hide Move, Serves, TaskOf, WellPlaced, Nanos;
    if events == [] {
    } else {
      var s, e := RunAll(c, Initial(start), events[..|events| - 1]), events[|events| - 1];
      EntriesAreAttributed(c, start, events[..|events| - 1]);
      if e.Advance? && e.p in s.processes {
        MoveServes(c, s.table, s.clock, e.p, s.processes[e.p], e.choice);
      } else if e.Arrive? {
        assert WellPlaced(Starting(e.task)) by {
          NewcomersArePlaced(e.task);
        }
      }
    }
  }

  lemma NewcomersArePlaced(task: Task)
    ensures WellPlaced(Starting(task))
  {
  }

  // ---------------------------------------------------------------- execution

  /** Over a whole run each request's command is executed at most once. */
  lemma ExecutedAtMostOnce(c: Config, start: Instant, events: seq<Event>, id: string)
    requires Sql(c)
    ensures Count(RunAll(c, Initial(start), events).log, Execution, id) <= 1
  {
    hide Next;
    Linearizable(c, start, events);
    OnceEach(c.rules, RunAll(c, Initial(start), events).log, Execution, id);
  }

  /** A create handler is about to file an id that is in use. Only the in-memory store lets it. */
  predicate Reuses(c: Config, s: State, e: Event) {
    && c.backend.Memory? && e.Advance? && e.p in s.processes
    && s.processes[e.p].Starting? && s.processes[e.p].task.File? && s.processes[e.p].task.draft.id in s.table
  }

  predicate NeverReuses(c: Config, s: State, events: seq<Event>) {
    events == []
    || (&& NeverReuses(c, s, events[..|events| - 1])
        && !Reuses(c, RunAll(c, s, events[..|events| - 1]), events[|events| - 1]))
  }

  predicate Launches(process: Process, id: string) {
    process.Launching? && process.call.id == id
  }

  /** The request exists and has been decided. */
  predicate IsDecided(t: Table, id: string) {
    id in t && !t[id].status.Pending?
  }

  /** At most one process may still execute the request, and only while none has. */
  predicate AtMostOne(s: State, id: string) {
    && Count(s.log, Execution, id) <= 1
    && (Count(s.log, Execution, id) > 0 ==> IsDecided(s.table, id))
    && (forall p :: p in s.processes && Launches(s.processes[p], id) ==>
          IsDecided(s.table, id) && Count(s.log, Execution, id) == 0)
    && (forall p, q :: p in s.processes && q in s.processes && Launches(s.processes[p], id) && Launches(s.processes[q], id)
          ==> p == q)
  }

  /** In every store a decision is final, and only the one who makes it goes on to execute. */
  lemma MoveDecides(c: Config, t: Table, clock: Instant, p: ProcessId, process: Process, choice: Choice, id: string)
    requires c.backend.Memory? && process.Starting? && process.task.File? ==> process.task.draft.id !in t
    ensures var effect := Move(c, t, clock, p, process, choice);
            && (IsDecided(t, id) ==> IsDecided(effect.table, id))
            && (Launches(effect.process, id) ==> !IsDecided(t, id) && IsDecided(effect.table, id))
            && (effect.entry.Some? && Concerns(effect.entry.value, Execution, id) ==> Launches(process, id))
  {
    hide Live, Nanos, Format, Argv, Acceptable, Outcomes;
  }

  lemma StepKeepsAtMostOne(c: Config, s: State, e: Event, id: string)
    requires AtMostOne(s, id) && !Reuses(c, s, e)
    ensures AtMostOne(Next(c, s, e), id)
  {
    hide Move, Nanos, Concerns;
    if e.Advance? && e.p in s.processes {
      var effect := Move(c, s.table, s.clock, e.p, s.processes[e.p], e.choice);
      MoveDecides(c, s.table, s.clock, e.p, s.processes[e.p], e.choice, id);
      if effect.entry.Some? {
        assert (s.log + [effect.entry.value])[..|s.log|] == s.log;
      }
    }
  }

  /** And so it is with every store, as long as the in-memory store is given a new id with each request. */
  lemma {:induction false} ExecutedAtMostOnceAnywhere(c: Config, start: Instant, events: seq<Event>, id: string)
    requires NeverReuses(c, Initial(start), events)
    ensures AtMostOne(RunAll(c, Initial(start), events), id)
    decreases |events|
  {
    hide Next, AtMostOne, Reuses;
    if events == [] {
      NobodyYet(start, id);
    } else {
      ExecutedAtMostOnceAnywhere(c, start, events[..|events| - 1], id);
      StepKeepsAtMostOne(c, RunAll(c, Initial(start), events[..|events| - 1]), events[|events| - 1], id);
    }
  }

  lemma NobodyYet(start: Instant, id: string)
    ensures AtMostOne(Initial(start), id)
  {
  }

  /** Whatever is executed: it was filed by a create handler, approved in time by the very v1 call that runs it, with
      the caller's name on it, and decided by nothing else; and the argument vector is vetted by the allowlist. */
  lemma ExecutionIsAuthorized(c: Config, start: Instant, events: seq<Event>, k: nat) returns (i: nat, j: nat)
    requires Sql(c)
    requires var log := RunAll(c, Initial(start), events).log; k < |log| && log[k].Run?
    ensures var s := RunAll(c, Initial(start), events);
            var log := s.log;
            && i < k && log[i].Submit? && log[i].id == log[k].id
            && log[k].argv == Argv(c.rules.allowlist, log[i].command)
            && j < k && log[j].Grant? && log[j].id == log[k].id && log[j].p == log[k].p
            && Precedes(c.backend.Sqlite?, log[j].at, log[i].expires)
            && (forall n :: 0 <= n < |log| && Concerns(log[n], Decision, log[k].id) ==> n == j)
            && log[k].p in s.processes
            && (var task := TaskOf(s.processes[log[k].p]);
                task.Decide? && task.call.V1? && task.call.Approving() && task.call.Actor() == log[j].actor)
  {
    hide Next, Argv, Nanos;
    var log := RunAll(c, Initial(start), events).log;
    Linearizable(c, start, events);
    EntriesAreAttributed(c, start, events);
    i, j := RunsAreAuthorized(c.rules, log, k);
    forall n | 0 <= n < |log| && Concerns(log[n], Decision, log[k].id)
      ensures n == j
    {
      OnlyOne(c.rules, log, Decision, log[k].id, n, j);
    }
  }

  /** From filing to the operating system: the arguments of every started process are the words of a filed command,
      and unless some entry is "*" an allowlist entry vets them. */
  lemma StartedProcessesAreVetted(c: Config, start: Instant, events: seq<Event>, k: nat, argv: seq<string>) returns (i: nat)
    requires Sql(c)
    requires var log := RunAll(c, Initial(start), events).log; k < |log| && log[k].Run? && log[k].argv == Ok(argv)
    requires forall n :: 0 <= n < |c.rules.allowlist| ==> Text.TrimSpace(c.rules.allowlist[n]) != "*"
    ensures var log := RunAll(c, Initial(start), events).log;
            && i < k && log[i].Submit? && log[i].id == log[k].id && Tokenize(log[i].command) == Ok(argv)
            && argv != [] && NoneEmpty(argv)
            && exists n :: 0 <= n < |c.rules.allowlist| && Vetted(c.rules.allowlist[n], log[i].command, argv)
  {
    hide Next, Nanos, Vetted, Argv, Tokenize;
    var j;
    i, j := ExecutionIsAuthorized(c, start, events, k);
    ArgvIsVetted(c.rules.allowlist, RunAll(c, Initial(start), events).log[i].command, argv);
  }

  /** The process is a create handler of the given kind. */
  predicate Files(s: State, p: ProcessId, viaPam: bool) {
    p in s.processes && TaskOf(s.processes[p]).File? && TaskOf(s.processes[p]).viaPam == viaPam
  }

  /** v1 submits and executes by one validation: what it filed is never refused by the allowlist when it is executed,
      and fails before it starts only if it is no list of words, which only "*" or a literal entry lets through. */
  lemma V1FilingsPassAgain(c: Config, start: Instant, events: seq<Event>, i: nat, k: nat)
    requires Sql(c)
    requires var s := RunAll(c, Initial(start), events);
             && i < |s.log| && k < |s.log| && s.log[i].Submit? && s.log[k].Run? && s.log[i].id == s.log[k].id
             && Files(s, s.log[i].p, false)
    ensures var log := RunAll(c, Initial(start), events).log;
            && log[k].argv != Err(NOT_ALLOWED)
            && (log[k].argv.Err? <==> Tokenize(log[i].command).Err? || Tokenize(log[i].command) == Ok([]))
            && (log[k].argv.Err? ==> IsLiteralEntry(c.rules.allowlist, log[i].command))
  {
    hide Next, Argv, Nanos, Allowed, Tokenize;
    RunOfFiling(c, start, events, i, k);
    AllowedArgv(c.rules.allowlist, RunAll(c, Initial(start), events).log[i].command);
  }

  /** One allowlist of trimmed entries for both. */
  predicate OneList(c: Config) {
    c.pamAllowlist == c.rules.allowlist
    && forall n :: 0 <= n < |c.pamAllowlist| ==> Text.TrimSpace(c.pamAllowlist[n]) == c.pamAllowlist[n]
  }

  /** PAM submits by its own matcher: what it filed is refused when it is executed exactly if the executor's matcher
      does not allow it. With one list that cannot happen to a command that the executor can take apart as PAM does, or
      that PAM never matches by tokens; SubmissionCheck and Scenarios show that it can happen to every other. */
  lemma PamFilingsMayFailAgain(c: Config, start: Instant, events: seq<Event>, i: nat, k: nat)
    requires Sql(c)
    requires var s := RunAll(c, Initial(start), events);
             && i < |s.log| && k < |s.log| && s.log[i].Submit? && s.log[k].Run? && s.log[i].id == s.log[k].id
             && Files(s, s.log[i].p, true)
    ensures var log := RunAll(c, Initial(start), events).log;
            && PamAllowed(c.pamAllowlist, log[i].command)
            && (log[k].argv == Err(NOT_ALLOWED) <==> !Allowed(c.rules.allowlist, log[i].command))
            && (OneList(c) && SubmissionCheck.IsSafe(log[i].command) ==> log[k].argv != Err(NOT_ALLOWED))
  {
    hide Next, Nanos, Tokenize, Allowed, PamAllowed, SubmissionCheck.IsSafe;
    RunOfFiling(c, start, events, i, k);
    var command := RunAll(c, Initial(start), events).log[i].command;
    if Allowed(c.rules.allowlist, command) {
      AllowedArgv(c.rules.allowlist, command);
    }
    if OneList(c) && SubmissionCheck.IsSafe(command) {
      SubmissionCheck.SafeFilingsPass(c.pamAllowlist, command);
    }
  }

  /** The filing behind an execution, and the check it passed. */
  lemma RunOfFiling(c: Config, start: Instant, events: seq<Event>, i: nat, k: nat)
    requires Sql(c)
    requires var s := RunAll(c, Initial(start), events);
             i < |s.log| && k < |s.log| && s.log[i].Submit? && s.log[k].Run? && s.log[i].id == s.log[k].id
    ensures var s := RunAll(c, Initial(start), events);
            && s.log[i].command != "" && s.log[k].argv == Argv(c.rules.allowlist, s.log[i].command)
            && (Files(s, s.log[i].p, false) ==> Allowed(c.rules.allowlist, s.log[i].command))
            && (Files(s, s.log[i].p, true) ==> PamAllowed(c.pamAllowlist, s.log[i].command))
  {
    hide Next, Argv, Nanos, Allowed, PamAllowed;
    var log := RunAll(c, Initial(start), events).log;
    var f, _ := ExecutionIsAuthorized(c, start, events, k);
    Linearizable(c, start, events);
    OnlyOne(c.rules, log, Filing, log[k].id, f, i);
    EntriesAreAttributed(c, start, events);
  }

  /** A request approved through PAM stays approved, under that approver's name, and is never executed. */
  lemma PamApprovalsStay(c: Config, start: Instant, events: seq<Event>, k: nat)
    requires Sql(c)
    requires var s := RunAll(c, Initial(start), events);
             && k < |s.log| && s.log[k].Grant? && s.log[k].p in s.processes
             && TaskOf(s.processes[s.log[k].p]).Decide? && TaskOf(s.processes[s.log[k].p]).call.Pam?
    ensures var s := RunAll(c, Initial(start), events);
            && s.log[k].id in s.table && s.table[s.log[k].id].status.Approved?
            && s.table[s.log[k].id].approvedBy == s.log[k].actor == TaskOf(s.processes[s.log[k].p]).call.Actor()
            && Count(s.log, Execution, s.log[k].id) == 0
  {
    hide Next, Nanos, Argv, AnswerHolds;
    var s := RunAll(c, Initial(start), events);
    var id := s.log[k].id;
    Linearizable(c, start, events);
    EntriesAreAttributed(c, start, events);
    GrantLasts(c.rules, s.log, k);
    if Count(s.log, Execution, id) > 0 {
      var j := CountedEntry(s.log, Execution, id);
      RefusedNeverRun(c.rules, s.log, k, j);
      assert false;
    }
    OnceEach(c.rules, s.log, Execution, id);
  }

  // ---------------------------------------------------------------- the unconditional update

  predicate Commits(process: Process, id: string) {
    (process.Launching? || process.Recording?) && process.call.id == id
  }

  /** In every reachable state the v1 result `Update` finds its row approved, so it acts as a compare-and-swap; and no
      two processes are ever between their winning swap and that update for one request. */
  lemma UpdateFindsApproved(c: Config, start: Instant, events: seq<Event>, p: ProcessId, id: string)
    requires Sql(c)
    requires var s := RunAll(c, Initial(start), events); p in s.processes && Commits(s.processes[p], id)
    ensures var s := RunAll(c, Initial(start), events);
            && id in s.table && s.table[id].status == Approved
            && forall q :: q in s.processes && Commits(s.processes[q], id) ==> q == p
  {
    hide Next, Nanos, AnswerHolds, RunLogged;
    InvariantHolds(c, start, events);
    var s := RunAll(c, Initial(start), events);
    RowAgrees(s.table[id], Replay(c.rules, s.log).value[id], id);
  }

  // ---------------------------------------------------------------- rows and statuses

  /** Reachable rows: an approver exactly while approved or denied, and exit codes 0 and 1 only. */
  lemma ReachableRows(c: Config, start: Instant, events: seq<Event>, id: string)
    requires Sql(c) && id in RunAll(c, Initial(start), events).table
    ensures var r := RunAll(c, Initial(start), events).table[id];
            && (r.approvedBy != "" <==> r.status.Approved? || r.status.Denied?)
            && (r.status.Completed? <==> r.exitCode == Some(0)) && (r.status.Failed? <==> r.exitCode == Some(1))
            && (r.exitCode == None <==> r.output == None)
            && (r.exitCode.None? ==> r.status.Pending? || r.status.Approved? || r.status.Denied? || r.status.Expired?)
  {
    hide Next, Nanos, ProcessHolds;
    InvariantHolds(c, start, events);
  }

  /** The edges of the life cycle. */
  predicate Edge(before: Status, after: Status) {
    || (before.Pending? && (after.Approved? || after.Denied? || after.Expired?))
    || (before.Approved? && (after.Completed? || after.Failed?))
  }

  function Rank(status: Status): nat {
    match status
    case Pending => 2
    case Approved => 1
    case _ => 0
  }

  lemma EntryMovesPhase(rules: Rules, b: Book, e: Entry, id: string)
    requires Permitted(rules, b, e) && id in b
    ensures var b' := After(rules, b, e);
            id in b' && (b'[id].phase.Status() == b[id].phase.Status() || Edge(b[id].phase.Status(), b'[id].phase.Status()))
  {
    hide Argv, Nanos;
  }

  lemma StepMovesStatus(c: Config, s: State, e: Event, id: string)
    requires Sql(c) && Invariant(c, s) && id in s.table
    ensures var s' := Next(c, s, e);
            id in s'.table && (s'.table[id].status == s.table[id].status || Edge(s.table[id].status, s'.table[id].status))
  {
    hide Move, ProcessHolds, RowMatches, Permitted, After, Nanos;
    if e.Advance? && e.p in s.processes {
      var b := Replay(c.rules, s.log).value;
      var effect := Move(c, s.table, s.clock, e.p, s.processes[e.p], e.choice);
      MoveHolds(c, b, s.table, s.clock, s.log, e.p, s.processes[e.p], e.choice);
      RowAgrees(s.table[id], b[id], id);
      if effect.entry.Some? {
        EntryMovesPhase(c.rules, b, effect.entry.value, id);
        RowAgrees(effect.table[id], After(c.rules, b, effect.entry.value)[id], id);
      } else {
        RowAgrees(effect.table[id], b[id], id);
      }
    }
  }

  /** How often the status of a row changes along a run. */
  function Changes(c: Config, s: State, events: seq<Event>, id: string): nat {
    if events == [] then 0
    else
      var mid := RunAll(c, s, events[..|events| - 1]);
      var end := Next(c, mid, events[|events| - 1]);
      Changes(c, s, events[..|events| - 1], id)
      + if id in mid.table && id in end.table && mid.table[id].status != end.table[id].status then 1 else 0
  }

  /** Once filed, a request stays filed and moves only along the edges: at most twice, and never back to pending. */
  lemma {:induction false} StatusChangesAreBounded(c: Config, start: Instant, before: seq<Event>, after: seq<Event>, id: string)
    requires Sql(c) && id in RunAll(c, Initial(start), before).table
    ensures var s := RunAll(c, Initial(start), before);
            var s' := RunAll(c, s, after);
            && id in s'.table
            && Changes(c, s, after, id) + Rank(s'.table[id].status) <= Rank(s.table[id].status) <= 2
            && (s'.table[id].status.Pending? ==> s.table[id].status.Pending?)
    decreases |after|
  {
    hide Next, Invariant;
    if after == [] {
    } else {
      var past := after[..|after| - 1];
      StatusChangesAreBounded(c, start, before, past, id);
      RunAppend(c, Initial(start), before, past);
      InvariantHolds(c, start, before + past);
      StepMovesStatus(c, RunAll(c, Initial(start), before + past), after[|after| - 1], id);
    }
  }

  // ---------------------------------------------------------------- expiry

  /** The clock never runs back. */
  lemma {:induction false} ClockGrows(c: Config, s: State, events: seq<Event>, m: nat)
    requires m <= |events|
    ensures Nanos(RunAll(c, s, events[..m]).clock) <= Nanos(RunAll(c, s, events).clock)
    decreases |events|
  {
    hide Nanos, Move;
    if m == |events| {
      assert events[..m] == events;
    } else {
      ClockGrows(c, s, events[..|events| - 1], m);
      assert events[..|events| - 1][..m] == events[..m];
    }
  }

  /** Event `m` of the run is the step by which process `p` reads the clock for its statement, and it reads `stamp`. */
  predicate ReadsClock(c: Config, start: Instant, events: seq<Event>, m: nat, p: ProcessId, stamp: Instant) {
    && m < |events| && events[m].Advance? && events[m].p == p
    && var s := RunAll(c, Initial(start), events[..m]);
    && s.clock == stamp && p in s.processes && (s.processes[p].Stamping? || s.processes[p] == Starting(Purge))
  }

  /** Where process `p` keeps the clock reading of a statement still to run. */
  predicate Stamped(process: Process, stamp: Instant) {
    (process.Swapping? || process.Purging?) && process.stamp == stamp
  }

  lemma StampOrigin(c: Config, s: State, e: Event, p: ProcessId, stamp: Instant)
    requires var s' := Next(c, s, e); p in s'.processes && Stamped(s'.processes[p], stamp)
    ensures || (p in s.processes && Stamped(s.processes[p], stamp))
            || (&& e.Advance? && e.p == p && s.clock == stamp && p in s.processes
                && (s.processes[p].Stamping? || s.processes[p] == Starting(Purge)))
  {
    hide Nanos, Fetch, Swap, Overwrite, Insert, Sweep, OverdueIds, Argv, Acceptable, Format;
  }

  /** A process holds only stamps that it read itself, after it had arrived. */
  lemma {:induction false} StampIsAReading(c: Config, start: Instant, events: seq<Event>, p: ProcessId, stamp: Instant)
    returns (m: nat)
    requires var s := RunAll(c, Initial(start), events); p in s.processes && Stamped(s.processes[p], stamp)
    ensures ReadsClock(c, start, events, m, p, stamp)
    decreases |events|
  {
    hide Next, Nanos;
    var past := events[..|events| - 1];
    var s := RunAll(c, Initial(start), past);
    StampOrigin(c, s, events[|events| - 1], p, stamp);
    if p in s.processes && Stamped(s.processes[p], stamp) {
      m := StampIsAReading(c, start, past, p, stamp);
      assert past[..m] == events[..m];
    } else {
      m := |events| - 1;
    }
  }

  /** Each entry is appended by one event, a step of the process it names. */
  lemma {:induction false} EntryHasItsEvent(c: Config, start: Instant, events: seq<Event>, k: nat) returns (n: nat)
    requires k < |RunAll(c, Initial(start), events).log|
    ensures n < |events|
    ensures var s, s' := RunAll(c, Initial(start), events[..n]), RunAll(c, Initial(start), events[..n + 1]);
            && |s.log| == k && |s'.log| == k + 1 && s'.log[k] == RunAll(c, Initial(start), events).log[k]
            && events[n].Advance? && events[n].p == s'.log[k].p && s' == Next(c, s, events[n]) && events[n].p in s.processes
    decreases |events|
  {
    hide Next, Nanos;
    var past := events[..|events| - 1];
    var s := RunAll(c, Initial(start), past);
    StepAppends(c, s, events[|events| - 1]);
    if k < |s.log| {
      n := EntryHasItsEvent(c, start, past, k);
      assert past[..n] == events[..n] && past[..n + 1] == events[..n + 1];
    } else {
      n := |past|;
      assert events[..n + 1] == events;
    }
  }

  predicate IsTimed(e: Entry) {
    e.Grant? || e.Refuse? || e.Reject? || e.LapseAll?
  }

  /** What the step that makes a timed entry compares with, and when it takes effect. */
  lemma TimedEntries(c: Config, s: State, p: ProcessId, choice: Choice)
    requires p in s.processes
    requires var entry := Move(c, s.table, s.clock, p, s.processes[p], choice).entry; entry.Some? && IsTimed(entry.value)
    ensures var e := Move(c, s.table, s.clock, p, s.processes[p], choice).entry.value;
            && (s.processes[p].Swapping? || s.processes[p].Purging?) && e.commit == s.clock
            && e.at == Reading(c.backend, choice.waits, s.processes[p].stamp, s.clock)
  {
    hide Nanos, Fetch, Swap, Overwrite, Insert, Sweep, OverdueIds, Argv, Acceptable, Format;
  }

  /** Every decision, rejection and sweep takes effect at one event `n` of the run, at clock `commit`; the reading `at`
      it compares with was taken by the same process at an earlier event `m` of the same call, or, when a PostgreSQL
      statement does not wait, at that very moment. */
  lemma ReadingsPrecedeCommits(c: Config, start: Instant, events: seq<Event>, k: nat) returns (m: nat, n: nat)
    requires k < |RunAll(c, Initial(start), events).log| && IsTimed(RunAll(c, Initial(start), events).log[k])
    ensures var e := RunAll(c, Initial(start), events).log[k];
            && n < |events| && events[n].Advance? && events[n].p == e.p
            && |RunAll(c, Initial(start), events[..n]).log| == k
            && |RunAll(c, Initial(start), events[..n + 1]).log| == k + 1
            && RunAll(c, Initial(start), events[..n]).clock == e.commit
            && m < n && Nanos(e.at) <= Nanos(e.commit)
            && (ReadsClock(c, start, events, m, e.p, e.at)
                || (!c.backend.Sqlite? && (c.backend.Postgres? ==> !events[n].choice.waits) && e.at == e.commit))
  {
    hide Nanos, Move;
    n := EntryHasItsEvent(c, start, events, k);
    var s := RunAll(c, Initial(start), events[..n]);
    var p := events[n].p;
    TimedEntries(c, s, p, events[n].choice);
    m := StampIsAReading(c, start, events[..n], p, s.processes[p].stamp);
    assert events[..n][..m] == events[..m];
    ClockGrows(c, Initial(start), events[..n], m);
  }

  /** An approval or denial succeeds only by a clock reading before the expiry, except that SQLite takes an inverted pair
      of texts the other way round; so never by one that is a second or more past it. When it takes effect it is late by
      less than that tolerance and the time since the process read the clock during this call. */
  lemma LateDecisionsFail(c: Config, start: Instant, events: seq<Event>, k: nat) returns (i: nat, m: nat)
    requires Sql(c)
    requires var log := RunAll(c, Initial(start), events).log; k < |log| && (log[k].Grant? || log[k].Refuse?)
    ensures var log := RunAll(c, Initial(start), events).log;
            && i < k && log[i].Submit? && log[i].id == log[k].id
            && Precedes(c.backend.Sqlite?, log[k].at, log[i].expires)
            && Nanos(log[k].at) < Nanos(log[i].expires) + Slack(c.backend)
            && Nanos(log[k].commit) - Nanos(log[i].expires) < Slack(c.backend) + (Nanos(log[k].commit) - Nanos(log[k].at))
    ensures var log := RunAll(c, Initial(start), events).log;
            ReadsClock(c, start, events, m, log[k].p, log[k].at) || (c.backend.Postgres? && log[k].at == log[k].commit)
  {
    hide Next, Nanos, ReadsClock;
    Linearizable(c, start, events);
    i := DecisionsRespectExpiry(c.rules, RunAll(c, Initial(start), events).log, k);
    var n;
    m, n := ReadingsPrecedeCommits(c, start, events, k);
  }

  /** And the first one on a filed request is turned away only by a reading that is not before the expiry, with the same
      exception. */
  lemma EarlyDecisionsSucceed(c: Config, start: Instant, events: seq<Event>, k: nat) returns (i: nat, m: nat)
    requires Sql(c)
    requires var log := RunAll(c, Initial(start), events).log;
             && k < |log| && log[k].Reject?
             && Count(log[..k], Filing, log[k].id) == 1 && Count(log[..k], Decision, log[k].id) == 0
    ensures var log := RunAll(c, Initial(start), events).log;
            && i < k && log[i].Submit? && log[i].id == log[k].id
            && !Precedes(c.backend.Sqlite?, log[k].at, log[i].expires)
            && Nanos(log[i].expires) < Nanos(log[k].at) + Slack(c.backend) <= Nanos(log[k].commit) + Slack(c.backend)
    ensures var log := RunAll(c, Initial(start), events).log;
            ReadsClock(c, start, events, m, log[k].p, log[k].at) || (c.backend.Postgres? && log[k].at == log[k].commit)
  {
    hide Next, Nanos, ReadsClock;
    Linearizable(c, start, events);
    i := DecisionsRespectExpiry(c.rules, RunAll(c, Initial(start), events).log, k);
    var n;
    m, n := ReadingsPrecedeCommits(c, start, events, k);
  }
}
