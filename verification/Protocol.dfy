/** The handlers as concurrent processes. Between two store calls of one process, any steps of the others, and any
    passage of time, may come. */
module Protocol {
  import opened Timestamp
  import opened Wrappers
  import opened Requests
  import opened Executor
  import opened PamMatcher
  import opened Ledger

  // ---------------------------------------------------------------- calls and answers

  datatype Action = Approve | Deny

  /** An approve or deny call. `telegramId` is the decimal id of the authenticated user. */
  datatype Call =
    | V1(action: Action, id: string, userId: string, token: string)
    | Pam(action: Action, id: string, telegramId: string)
    | Telegram(id: string, username: string, telegramId: string)
  {
    predicate Approving() {
      !Telegram? && action.Approve?
    }

    /** The name the store records. */
    function Actor(): string {
      match this
      case V1(_, _, userId, _) => userId
      case Pam(_, _, telegramId) => "tg:" + telegramId
      case Telegram(_, username, telegramId) => if username != "" then username else "tg:" + telegramId
    }

    /** What the v1 handler demands of the body before it touches the store. */
    predicate Complete() {
      V1? ==> userId != "" && (action.Approve? ==> token != "")
    }
  }

  datatype Task =
    | Decide(call: Call)
    | File(draft: Request, viaPam: bool)
    | Purge

  datatype Reply =
    | NotFound                      // 404: no such request
    | Unavailable                   // Telegram's "Request not found", which also covers store errors
    | StoreFailure                  // 500
    | Unauthorized
    | BadRequest
    | Forbidden
    | AlreadyIs(status: Status)     // v1: "request already ..."
    | Gone                          // "request expired"
    | Conflict                      // "request already processed"
    | PamApproved
    | WasDenied
    | ExecutionFailed
    | WasCompleted(output: string)
    | WasFiled
    | WasPurged

  // ---------------------------------------------------------------- processes

  /** Where a process stands: the store or clock step it takes next, with what it remembers. */
  datatype Process =
    | Starting(task: Task)
    | Checking(call: Call, req: Request)                      // Get answered; the clock comes next
    | Marking(call: Call, req: Request)                       // past expiry: UpdateStateIf to "expired"
    | Stamping(call: Call, req: Request)                      // entering UpdateStateIf: it reads the clock first
    | Swapping(call: Call, req: Request, stamp: Instant)      // then it runs the statement
    | Launching(call: Call, req: Request)                     // v1 approval won: Execute
    | Recording(call: Call, req: Request, verdict: Verdict)   // executed: unconditional Update
    | Purging(stamp: Instant)                                 // ExpireOldRequests: clock read, statement to come
    | Done(task: Task, reply: Reply)

  /** What the surroundings contribute to one step. */
  datatype Choice = Choice(
    db: Outcome,
    exit: Exit,
    gate: Gate,
    waits: bool)        // a PostgreSQL statement waits for a row lock, its NOW() being fixed already

  /** Whether PAM lets a caller through: a token in the body, initData that authenticates a sender, a sender on the user
      list, an enrolled token that is valid and the presented one, and that token stored again. */
  datatype Gate = Admitted | NoToken | NoSender | NotListed | NoDevice | NotRenewed

  /** 400, 401, 403, 401 and 500. */
  function Refusal(gate: Gate): Reply
    requires !gate.Admitted?
  {
    match gate
    case NoToken => BadRequest
    case NoSender => Unauthorized
    case NotListed => Forbidden
    case NoDevice => Unauthorized
    case NotRenewed => StoreFailure
  }

  datatype Config = Config(backend: Backend, rules: Rules, pamAllowlist: seq<string>, requireReason: bool)

  /** What one step leaves: the table, the process, and the atomic action it amounts to, if any. */
  datatype Effect = Effect(table: Table, process: Process, entry: Option<Entry>)

  /** The reading a statement compares with: the SQLite store takes it before it hands the statement over, PostgreSQL
      when the transaction starts, and the in-memory store under its lock. */
  function Reading(backend: Backend, waits: bool, stamp: Instant, clock: Instant): Instant {
    if backend.Sqlite? || (backend.Postgres? && waits) then stamp else clock
  }

  function Lookup(c: Config, t: Table, p: ProcessId, call: Call, choice: Choice): Effect {
    if call.Pam? && !choice.gate.Admitted? then Effect(t, Done(Decide(call), Refusal(choice.gate)), None)
    else
      var answer: Result<Option<Request>> := Answer(choice.db, Fetch(c.backend, t, call.id));
      match answer
      case Err(_) => Effect(t, Done(Decide(call), if call.Telegram? then Unavailable else StoreFailure), None)
      case Ok(None) =>
        Effect(t, Done(Decide(call), if call.Telegram? then Unavailable else NotFound), Some(Look(p, call.id, None)))
      case Ok(Some(req)) =>
        var entry := Some(Look(p, call.id, Some(req.status)));
        if call.V1? && !req.status.Pending? then Effect(t, Done(Decide(call), AlreadyIs(req.status)), entry)
        else Effect(t, Checking(call, req), entry)
  }

  function Check(t: Table, clock: Instant, call: Call, req: Request): Effect {
    if Before(req.expiresAt, clock) then
      Effect(t, if call.Telegram? then Done(Decide(call), Gone) else Marking(call, req), None)
    else Effect(t, if call.Complete() then Stamping(call, req) else Done(Decide(call), BadRequest), None)
  }

  function Mark(c: Config, t: Table, clock: Instant, p: ProcessId, call: Call, choice: Choice): Effect {
    var (after, changed) := Swap(c.backend, t, call.id, Pending, Expired, "", clock);
    Effect(Committed(choice.db, t, after), Done(Decide(call), Gone),
           if changed && !choice.db.FailsBefore? then Some(Lapse(p, call.id, clock)) else None)
  }

  function Target(call: Call): Status {
    if call.Approving() then Approved else Denied
  }

  function Verdicted(p: ProcessId, call: Call, won: bool, at: Instant, clock: Instant): Entry {
    if !won then Reject(p, call.id, at, clock)
    else if call.Approving() then Grant(p, call.id, call.Actor(), at, clock)
    else Refuse(p, call.id, call.Actor(), at, clock)
  }

  function Decided(c: Config, t: Table, p: ProcessId, call: Call, req: Request, at: Instant, clock: Instant, choice: Choice)
    : Effect
  {
    var (after, won) := Swap(c.backend, t, call.id, Pending, Target(call), call.Actor(), at);
    var process :=
      if !choice.db.Works? then Done(Decide(call), StoreFailure)
      else if !won then Done(Decide(call), Conflict)
      else if !call.Approving() then Done(Decide(call), WasDenied)
      else if call.V1? then Launching(call, req)
      else Done(Decide(call), PamApproved);
    Effect(Committed(choice.db, t, after), process,
           if choice.db.FailsBefore? then None else Some(Verdicted(p, call, won, at, clock)))
  }

  /** `Execute`, seen from its caller: only the error matters, not the exit code that may come with it. */
  function Outcomes(argv: Result<seq<string>>, exit: Exit): Verdict {
    if argv.Err? then Failure(argv.message)
    else match exit
      case Clean(stdout) => Success(stdout)
      case Broken(_, _, message) => Failure(message)
      case Unstarted(reason) => Failure(reason)
  }

  function Launch(c: Config, t: Table, p: ProcessId, call: Call, req: Request, choice: Choice): Effect {
    var argv := Argv(c.rules.allowlist, req.command);
    var verdict := Outcomes(argv, choice.exit);
    Effect(t, Recording(call, req, verdict), Some(Run(p, call.id, argv, verdict)))
  }

  /** The record v1 passes to `Update`: every field but these four is unset. */
  function FinalRecord(id: string, verdict: Verdict): Request {
    match verdict
    case Success(output) => Bare(id, Completed, output, 0)
    case Failure(message) => Bare(id, Failed, message, 1)
  }

  function Record(c: Config, t: Table, p: ProcessId, call: Call, verdict: Verdict, choice: Choice): Effect {
    Effect(Committed(choice.db, t, Overwrite(c.backend, t, FinalRecord(call.id, verdict))),
           Done(Decide(call), if verdict.Success? then WasCompleted(verdict.output) else ExecutionFailed),
           if choice.db.FailsBefore? then None else Some(Finish(p, call.id)))
  }

  /** What a create handler may file: pending, undecided, without results. */
  predicate IsDraft(r: Request) {
    r.status.Pending? && r.approvedBy == "" && r.approvedAt.None? && r.output.None? && r.exitCode.None?
  }

  predicate Acceptable(c: Config, draft: Request, viaPam: bool) {
    if viaPam then PamAllowed(c.pamAllowlist, draft.command) else Allowed(c.rules.allowlist, draft.command)
  }

  function FileNow(c: Config, t: Table, p: ProcessId, draft: Request, viaPam: bool, choice: Choice): Effect {
    var task := File(draft, viaPam);
    if viaPam && !choice.gate.Admitted? then Effect(t, Done(task, Refusal(choice.gate)), None)
    else if draft.command == "" || (!viaPam && c.requireReason && draft.reason == "") then
      Effect(t, Done(task, BadRequest), None)
    else if !Acceptable(c, draft, viaPam) then Effect(t, Done(task, Forbidden), None)
    else
      var (after, inserted) := Insert(c.backend, t, draft);
      Effect(Committed(choice.db, t, after),
             Done(task, if inserted && choice.db.Works? then WasFiled else StoreFailure),
             if inserted && !choice.db.FailsBefore? then Some(Submit(p, draft.id, draft.command, draft.expiresAt)) else None)
  }

  function PurgeNow(c: Config, t: Table, p: ProcessId, at: Instant, clock: Instant, choice: Choice): Effect {
    Effect(Committed(choice.db, t, Sweep(c.backend, t, at)), Done(Purge, WasPurged),
           if choice.db.FailsBefore? then None else Some(LapseAll(p, OverdueIds(c.backend, t, at), at, clock)))
  }

  /** One step of one process. */
  function Move(c: Config, t: Table, clock: Instant, p: ProcessId, process: Process, choice: Choice): Effect {
    match process
    case Starting(Decide(call)) => Lookup(c, t, p, call, choice)
    case Starting(File(draft, viaPam)) => FileNow(c, t, p, draft, viaPam, choice)
    case Starting(Purge) => Effect(t, Purging(clock), None)
    case Checking(call, req) => Check(t, clock, call, req)
    case Marking(call, _) => Mark(c, t, clock, p, call, choice)
    case Stamping(call, req) => Effect(t, Swapping(call, req, clock), None)
    case Swapping(call, req, stamp) => Decided(c, t, p, call, req, Reading(c.backend, choice.waits, stamp, clock), clock, choice)
    case Launching(call, req) => Launch(c, t, p, call, req, choice)
    case Recording(call, _, verdict) => Record(c, t, p, call, verdict, choice)
    case Purging(stamp) => PurgeNow(c, t, p, Reading(c.backend, choice.waits, stamp, clock), clock, choice)
    case Done(_, _) => Effect(t, process, None)
  }

  // ---------------------------------------------------------------- the whole system

  datatype State = State(table: Table, clock: Instant, processes: map<ProcessId, Process>, log: seq<Entry>)

  datatype Event =
    | Tick(time: Instant)                          // ignored when it would turn the clock back
    | Arrive(p: ProcessId, task: Task)             // ignored when `p` is taken or the draft is not one
    | Advance(p: ProcessId, choice: Choice)

  predicate Admissible(task: Task) {
    task.File? ==> IsDraft(task.draft)
  }

  function Initial(start: Instant): State {
    State(map[], start, map[], [])
  }

  function Next(c: Config, s: State, e: Event): State {
    match e
    case Tick(time) => if Before(time, s.clock) then s else s.(clock := time)
    case Arrive(p, task) =>
      if p in s.processes || !Admissible(task) then s else s.(processes := s.processes[p := Starting(task)])
    case Advance(p, choice) =>
      if p !in s.processes then s
      else
        var effect := Move(c, s.table, s.clock, p, s.processes[p], choice);
        State(effect.table, s.clock, s.processes[p := effect.process],
              if effect.entry.Some? then s.log + [effect.entry.value] else s.log)
  }

  /** Any interleaving is a sequence of events. */
  function RunAll(c: Config, s: State, events: seq<Event>): State {
    if events == [] then s else Next(c, RunAll(c, s, events[..|events| - 1]), events[|events| - 1])
  }
}
