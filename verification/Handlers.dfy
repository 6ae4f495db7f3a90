/** The handlers as straight-line programs over the SQLite store. Left undisturbed, each does exactly what its process
    does in the concurrent model, step by step. */
module Handlers {
  import opened Timestamp
  import opened Wrappers
  import opened Requests
  import opened Executor
  import opened PamMatcher
  import opened Ledger
  import opened Protocol
  import SqliteStore
  import TokenVault

  /** What the clock and the surroundings hold ready for one step. */
  datatype Moment = Moment(clock: Instant, choice: Choice)

  /** The steps of one process with no other process in between. */
  function Solo(c: Config, t: Table, p: ProcessId, process: Process, moments: seq<Moment>): (Table, Process)
    decreases |moments|
  {
    if moments == [] then (t, process)
    else
      var effect := Move(c, t, moments[0].clock, p, process, moments[0].choice);
      Solo(c, effect.table, p, effect.process, moments[1..])
  }

  /** A finished process has no effect. */
  lemma {:induction false} DoneStays(c: Config, t: Table, p: ProcessId, task: Task, reply: Reply, moments: seq<Moment>)
    ensures Solo(c, t, p, Done(task, reply), moments) == (t, Done(task, reply))
    decreases |moments|
  {
    if moments == [] {
    } else {
      DoneStays(c, t, p, task, reply, moments[1..]);
    }
  }

  lemma SoloStep(c: Config, t: Table, p: ProcessId, process: Process, moments: seq<Moment>, k: nat)
    requires k < |moments|
    ensures var effect := Move(c, t, moments[k].clock, p, process, moments[k].choice);
            && Solo(c, t, p, process, moments[k..]) == Solo(c, effect.table, p, effect.process, moments[k + 1..])
            && (effect.process.Done? ==>
                  Solo(c, t, p, process, moments[k..]) == (effect.table, effect.process))
  {
    hide Move;
    var effect := Move(c, t, moments[k].clock, p, process, moments[k].choice);
    assert moments[k..][1..] == moments[k + 1..];
    if effect.process.Done? {
      DoneStays(c, effect.table, p, effect.process.task, effect.process.reply, moments[k + 1..]);
    }
  }

  /** `Execute` as v1 calls it: checks, tokenizes, runs, and reports only whether an error came back. */
  method Execute(allowlist: seq<string>, command: string, exit: Exit) returns (verdict: Verdict)
    ensures verdict == Outcomes(Argv(allowlist, command), exit)
  {
    hide Argv;
    var argv := PrepareArgv(allowlist, command);
    if argv.Err? {
      return Failure(argv.message);
    }
    var (result, error) := Report(exit);
    if error.Some? {
      return Failure(error.value);
    }
    return Success(result.stdout);
  }

  /** v1 `handleApproveOrDeny` for a well-formed path. */
  method HandleApproveOrDeny(store: SqliteStore.Store, c: Config, ghost p: ProcessId, call: Call, moments: seq<Moment>)
    returns (reply: Reply)
    requires c.backend.Sqlite? && call.V1? && |moments| == 6 && store.Valid()
    modifies store
    ensures store.Valid()
    ensures (store.contents, Done(Decide(call), reply))
            == Solo(c, old(store.contents), p, Starting(Decide(call)), moments)
  {
    hide Solo, Swap, Fetch, Overwrite, Argv, Outcomes, Nanos, store.Valid;
    assert moments[0..] == moments;
    SoloStep(c, store.contents, p, Starting(Decide(call)), moments, 0);
    var got := store.Get(call.id, moments[0].choice.db);
    if got.Err? {
      return StoreFailure;
    }
    if got.value.None? {
      return NotFound;
    }
    var request := got.value.value;
    if request.status != Pending {
      return AlreadyIs(request.status);
    }
    if Before(request.expiresAt, moments[1].clock) {
      SoloStep(c, store.contents, p, Checking(call, request), moments, 1);
      SoloStep(c, store.contents, p, Marking(call, request), moments, 2);
      var _ := store.UpdateStateIf(call.id, Pending, Expired, "", moments[2].clock, moments[2].choice.db);
      return Gone;
    }
    if call.action.Approve? {
      reply := ApprovePending(store, c, p, call, request, moments);
    } else {
      reply := DenyPending(store, c, p, call, request, moments);
    }
  }

  /** The rest of `handleApproveOrDeny` for the action "approve". */
  method ApprovePending(store: SqliteStore.Store, c: Config, ghost p: ProcessId, call: Call, request: Request,
                        moments: seq<Moment>)
    returns (reply: Reply)
    requires c.backend.Sqlite? && call.V1? && call.action.Approve? && |moments| == 6 && store.Valid()
    requires !Before(request.expiresAt, moments[1].clock)
    modifies store
    ensures store.Valid()
    ensures (store.contents, Done(Decide(call), reply))
            == Solo(c, old(store.contents), p, Checking(call, request), moments[1..])
  {
    hide Solo, Swap, Fetch, Overwrite, Argv, Outcomes, Nanos, store.Valid;
    SoloStep(c, store.contents, p, Checking(call, request), moments, 1);
    if call.token == "" || call.userId == "" {
      return BadRequest;
    }
    SoloStep(c, store.contents, p, Stamping(call, request), moments, 2);
    SoloStep(c, store.contents, p, Swapping(call, request, moments[2].clock), moments, 3);
    var success := store.UpdateStateIf(call.id, Pending, Approved, call.userId, moments[2].clock, moments[3].choice.db);
    if success.Err? {
      return StoreFailure;
    }
    if !success.value {
      return Conflict;
    }
    reply := ExecuteApproved(store, c, p, call, request, moments);
  }

  /** The part after the approval is won. */
  method ExecuteApproved(store: SqliteStore.Store, c: Config, ghost p: ProcessId, call: Call, request: Request,
                         moments: seq<Moment>)
    returns (reply: Reply)
    requires c.backend.Sqlite? && |moments| == 6 && store.Valid()
    modifies store
    ensures store.Valid()
    ensures (store.contents, Done(Decide(call), reply))
            == Solo(c, old(store.contents), p, Launching(call, request), moments[4..])
  {
    hide Solo, Overwrite, Argv, Outcomes, Nanos, store.Valid;
    SoloStep(c, store.contents, p, Launching(call, request), moments, 4);
    var verdict := Execute(c.rules.allowlist, request.command, moments[4].choice.exit);
    SoloStep(c, store.contents, p, Recording(call, request, verdict), moments, 5);
    if verdict.Failure? {
      var _ := store.Update(Bare(call.id, Failed, verdict.message, 1), moments[5].choice.db);
      return ExecutionFailed;
    }
    var _ := store.Update(Bare(call.id, Completed, verdict.output, 0), moments[5].choice.db);
    return WasCompleted(verdict.output);
  }

  /** The rest of `handleApproveOrDeny` for the action "deny". */
  method DenyPending(store: SqliteStore.Store, c: Config, ghost p: ProcessId, call: Call, request: Request,
                     moments: seq<Moment>)
    returns (reply: Reply)
    requires c.backend.Sqlite? && call.V1? && call.action.Deny? && |moments| == 6 && store.Valid()
    requires !Before(request.expiresAt, moments[1].clock)
    modifies store
    ensures store.Valid()
    ensures (store.contents, Done(Decide(call), reply))
            == Solo(c, old(store.contents), p, Checking(call, request), moments[1..])
  {
    hide Solo, Swap, Fetch, Nanos, store.Valid;
    SoloStep(c, store.contents, p, Checking(call, request), moments, 1);
    if call.userId == "" {
      return BadRequest;
    }
    SoloStep(c, store.contents, p, Stamping(call, request), moments, 2);
    SoloStep(c, store.contents, p, Swapping(call, request, moments[2].clock), moments, 3);
    var success := store.UpdateStateIf(call.id, Pending, Denied, call.userId, moments[2].clock, moments[3].choice.db);
    if success.Err? {
      return StoreFailure;
    }
    return if success.value then WasDenied else Conflict;
  }

  /** The checks of PAM `handleApprove` and `handleDeny` before they turn to the request. */
  method Admit(pam: TokenVault.Pam, sender: Option<string>, users: seq<string>, presented: string,
               moments: seq<TokenVault.Moment>)
    returns (gate: Gate)
    requires |moments| >= 13
    modifies pam
    ensures gate == NoToken <==> presented == ""
    ensures gate == NoSender <==> presented != "" && sender.None?
    ensures gate == NotListed <==> presented != "" && sender.Some? && sender.value !in users
    ensures if presented == "" || sender.None? || sender.value !in users then pam.tokens == old(pam.tokens)
            else PresentsToken(pam.ttlMinutes, old(pam.tokens), pam.tokens, "tg:" + sender.value, presented, moments, gate)
  {
    hide TokenVault.Solo;
    if presented == "" {
      return NoToken;
    }
    if sender.None? {
      return NoSender;
    }
    var authorized := CheckAuthorization(sender.value, users);
    if !authorized {
      return NotListed;
    }
    var outcome, k := pam.UseToken("tg:" + sender.value, presented, moments);
    gate := match outcome
      case Succeeded => Admitted
      case Refused => NoDevice
      case NotStored => NotRenewed;
  }

  /** `CheckAuthorization`, with `users` the ids on the list in force. */
  method CheckAuthorization(sender: string, users: seq<string>) returns (authorized: bool)
    ensures authorized <==> sender in users
  {
    for i := 0 to |users|
      invariant sender !in users[..i]
    {
      if users[i] == sender {
        return true;
      }
    }
    return false;
  }

  /** A full use of the token, step by step as a process of the token vault, ends as the gate says. */
  ghost predicate PresentsToken(ttlMinutes: int, before: TokenVault.Vault, after: TokenVault.Vault, user: string,
                                presented: string, moments: seq<TokenVault.Moment>, gate: Gate)
  {
    var job := TokenVault.Use(user, presented);
    exists k, outcome :: 0 <= k <= |moments|
      && TokenVault.Solo(ttlMinutes, before, TokenVault.Starting(job), moments[..k])
         == (after, TokenVault.Finished(job, outcome))
      && gate == match outcome
                 case Succeeded => Admitted
                 case Refused => NoDevice
                 case NotStored => NotRenewed
  }

  /** PAM `handleApprove` and `handleDeny`. Whether the caller is let through is what `Admit` finds. */
  method HandlePam(store: SqliteStore.Store, pam: TokenVault.Pam, c: Config, ghost p: ProcessId, action: Action, id: string,
                   sender: Option<string>, users: seq<string>, presented: string,
                   tokenMoments: seq<TokenVault.Moment>, moments: seq<Moment>)
    returns (reply: Reply, gate: Gate)
    requires c.backend.Sqlite? && |moments| == 4 && |tokenMoments| >= 13 && store.Valid()
    modifies store, pam
    ensures store.Valid()
    ensures gate == NoToken <==> presented == ""
    ensures gate == NoSender <==> presented != "" && sender.None?
    ensures gate == NotListed <==> presented != "" && sender.Some? && sender.value !in users
    ensures if presented == "" || sender.None? || sender.value !in users then pam.tokens == old(pam.tokens)
            else PresentsToken(pam.ttlMinutes, old(pam.tokens), pam.tokens, "tg:" + sender.value, presented, tokenMoments,
                               gate)
    ensures var call := Call.Pam(action, id, if sender.Some? then sender.value else "");
            (store.contents, Done(Decide(call), reply))
            == Solo(c, old(store.contents), p, Starting(Decide(call)), Passing(moments, gate))
  {
    hide Solo, PresentsToken, store.Valid;
    gate := Admit(pam, sender, users, presented, tokenMoments);
    reply := HandleAdmitted(store, c, p, Call.Pam(action, id, if sender.Some? then sender.value else ""),
                            Passing(moments, gate));
  }

  /** The same moments, with the answer of `Admit` in the first. */
  function Passing(moments: seq<Moment>, gate: Gate): (result: seq<Moment>)
    requires moments != []
    ensures |result| == |moments|
  {
    moments[0 := Moment(moments[0].clock, moments[0].choice.(gate := gate))]
  }

  /** The part of `handleApprove` and `handleDeny` that deals with the request. */
  method HandleAdmitted(store: SqliteStore.Store, c: Config, ghost p: ProcessId, call: Call, moments: seq<Moment>)
    returns (reply: Reply)
    requires c.backend.Sqlite? && call.Pam? && |moments| == 4 && store.Valid()
    modifies store
    ensures store.Valid()
    ensures (store.contents, Done(Decide(call), reply))
            == Solo(c, old(store.contents), p, Starting(Decide(call)), moments)
  {
    hide Solo, Swap, Fetch, Nanos, store.Valid;
    assert moments[0..] == moments;
    SoloStep(c, store.contents, p, Starting(Decide(call)), moments, 0);
    if !moments[0].choice.gate.Admitted? {
      return Refusal(moments[0].choice.gate);
    }
    var pending := store.Get(call.id, moments[0].choice.db);
    if pending.Err? {
      return StoreFailure;
    }
    if pending.value.None? {
      return NotFound;
    }
    var request := pending.value.value;
    SoloStep(c, store.contents, p, Checking(call, request), moments, 1);
    if Before(request.expiresAt, moments[1].clock) {
      SoloStep(c, store.contents, p, Marking(call, request), moments, 2);
      var _ := store.UpdateStateIf(call.id, Pending, Expired, "", moments[2].clock, moments[2].choice.db);
      return Gone;
    }
    SoloStep(c, store.contents, p, Stamping(call, request), moments, 2);
    SoloStep(c, store.contents, p, Swapping(call, request, moments[2].clock), moments, 3);
    var target := if call.action.Approve? then Approved else Denied;
    var userId := "tg:" + call.telegramId;
    var success := store.UpdateStateIf(call.id, Pending, target, userId, moments[2].clock, moments[3].choice.db);
    if success.Err? {
      return StoreFailure;
    }
    if !success.value {
      return Conflict;
    }
    return if call.action.Approve? then PamApproved else WasDenied;
  }

  /** Telegram `handleDeny`: no status check, and an expired request is left as it is. */
  method HandleTelegramDeny(store: SqliteStore.Store, c: Config, ghost p: ProcessId, call: Call, moments: seq<Moment>)
    returns (reply: Reply)
    requires c.backend.Sqlite? && call.Telegram? && |moments| == 4 && store.Valid()
    modifies store
    ensures store.Valid()
    ensures (store.contents, Done(Decide(call), reply))
            == Solo(c, old(store.contents), p, Starting(Decide(call)), moments)
  {
    hide Solo, Swap, Fetch, Nanos, store.Valid;
    assert moments[0..] == moments;
    SoloStep(c, store.contents, p, Starting(Decide(call)), moments, 0);
    var got := store.Get(call.id, moments[0].choice.db);
    if got.Err? || got.value.None? {
      return Unavailable;
    }
    var request := got.value.value;
    SoloStep(c, store.contents, p, Checking(call, request), moments, 1);
    if Before(request.expiresAt, moments[1].clock) {
      return Gone;
    }
    var username := if call.username == "" then "tg:" + call.telegramId else call.username;
    SoloStep(c, store.contents, p, Stamping(call, request), moments, 2);
    SoloStep(c, store.contents, p, Swapping(call, request, moments[2].clock), moments, 3);
    var success := store.UpdateStateIf(call.id, Pending, Denied, username, moments[2].clock, moments[3].choice.db);
    if success.Err? {
      return StoreFailure;
    }
    return if success.value then WasDenied else Conflict;
  }

  /** v1 `handleCreateRequest`, from the validated body on. */
  method HandleCreate(store: SqliteStore.Store, c: Config, ghost p: ProcessId, draft: Request, moment: Moment)
    returns (reply: Reply)
    requires c.backend.Sqlite? && IsDraft(draft) && store.Valid()
    modifies store
    ensures store.Valid()
    ensures (store.contents, Done(File(draft, false), reply))
            == Solo(c, old(store.contents), p, Starting(File(draft, false)), [moment])
  {
    hide Solo, Insert, Allowed, Nanos, store.Valid;
    ghost var moments := [moment];
    assert moments[0..] == moments;
    SoloStep(c, store.contents, p, Starting(File(draft, false)), moments, 0);
    if draft.command == "" {
      return BadRequest;
    }
    if c.requireReason && draft.reason == "" {
      return BadRequest;
    }
    var allowed := IsAllowed(c.rules.allowlist, draft.command);
    if !allowed {
      return Forbidden;
    }
    var created := store.Create(draft, moment.choice.db);
    return if created.Ok? then WasFiled else StoreFailure;
  }

  /** Filing through PAM takes no token. */
  function SenderGate(sender: Option<string>, users: seq<string>): Gate {
    if sender.None? then NoSender else if sender.value !in users then NotListed else Admitted
  }

  /** PAM `handleCreateRequest`, which checks the caller but no token. */
  method HandlePamCreate(store: SqliteStore.Store, c: Config, ghost p: ProcessId, draft: Request, sender: Option<string>,
                         users: seq<string>, moment: Moment)
    returns (reply: Reply)
    requires c.backend.Sqlite? && IsDraft(draft) && store.Valid()
    modifies store
    ensures store.Valid()
    ensures (store.contents, Done(File(draft, true), reply))
            == Solo(c, old(store.contents), p, Starting(File(draft, true)),
                    Passing([moment], SenderGate(sender, users)))
  {
    hide Solo, Insert, PamAllowed, Nanos, store.Valid;
    ghost var moments := Passing([moment], SenderGate(sender, users));
    assert moments[0..] == moments;
    SoloStep(c, store.contents, p, Starting(File(draft, true)), moments, 0);
    if sender.None? {
      return Unauthorized;
    }
    var authorized := CheckAuthorization(sender.value, users);
    if !authorized {
      return Forbidden;
    }
    if draft.command == "" {
      return BadRequest;
    }
    var allowed := IsCommandAllowed(c.pamAllowlist, draft.command);
    if !allowed {
      return Forbidden;
    }
    var created := store.Create(draft, moment.choice.db);
    return if created.Ok? then WasFiled else StoreFailure;
  }

  /** The hourly `performCleanup`. */
  method PerformCleanup(store: SqliteStore.Store, c: Config, ghost p: ProcessId, moments: seq<Moment>)
    requires c.backend.Sqlite? && |moments| == 2 && store.Valid()
    modifies store
    ensures store.Valid()
    ensures (store.contents, Done(Purge, WasPurged)) == Solo(c, old(store.contents), p, Starting(Purge), moments)
  {
    hide Solo, Sweep, OverdueIds, Nanos, store.Valid;
    assert moments[0..] == moments;
    SoloStep(c, store.contents, p, Starting(Purge), moments, 0);
    SoloStep(c, store.contents, p, Purging(moments[0].clock), moments, 1);
    var _ := store.ExpireOldRequests(moments[0].clock, moments[1].choice.db);
  }
}
