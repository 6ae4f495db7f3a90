/** Runs that show what the handlers may do, most of them over the SQLite store: the limits of the theorems about all runs
    are reached. */
module Scenarios {
  import opened Timestamp
  import opened Wrappers
  import opened Requests
  import opened Executor
  import opened PamMatcher
  import opened Ledger
  import opened Protocol
  import opened Linearization
  import opened Runs
  import SubmissionCheck
  import Text

  // ---------------------------------------------------------------- building blocks

  /** Nothing fails, and PAM lets its callers through. */
  function Smooth(exit: Exit): Choice {
    Choice(Works, exit, Admitted, false)
  }

  lemma Extend(c: Config, start: Instant, events: seq<Event>, e: Event) returns (longer: seq<Event>)
    ensures longer == events + [e]
    ensures RunAll(c, Initial(start), longer) == Next(c, RunAll(c, Initial(start), events), e)
  {
    longer := events + [e];
    assert longer[..|events|] == events;
  }

  /** What the create handlers file. */
  predicate IsFiled(c: Config, draft: Request, viaPam: bool) {
    && c.backend.Sqlite? && IsDraft(draft) && Acceptable(c, draft, viaPam)
    && draft.command != "" && (!viaPam && c.requireReason ==> draft.reason != "")
  }

  lemma FilesTheDraft(c: Config, clock: Instant, draft: Request, viaPam: bool, exit: Exit)
    requires IsFiled(c, draft, viaPam)
    ensures Move(c, map[], clock, 0, Starting(File(draft, viaPam)), Smooth(exit)) ==
            Effect(map[draft.id := draft], Done(File(draft, viaPam), WasFiled),
                   Some(Submit(0, draft.id, draft.command, draft.expiresAt)))
  {
    hide Nanos, Format, Acceptable;
    assert draft == draft.(approvedBy := "", approvedAt := None, output := None, exitCode := None);
  }

  /** Process 0 files the draft. */
  lemma FiledAtOnce(c: Config, start: Instant, draft: Request, viaPam: bool, exit: Exit) returns (events: seq<Event>)
    requires IsFiled(c, draft, viaPam)
    ensures RunAll(c, Initial(start), events) ==
            State(map[draft.id := draft], start, map[0 := Done(File(draft, viaPam), WasFiled)],
                  [Submit(0, draft.id, draft.command, draft.expiresAt)])
  {
    hide Move, Nanos, Format, Acceptable;
    FilesTheDraft(c, start, draft, viaPam, exit);
    events := Extend(c, start, [], Arrive(0, File(draft, viaPam)));
    events := Extend(c, start, events, Advance(0, Smooth(exit)));
  }

  /** Process 1, an approval or denial through v1, looks at the request, finds it not past its expiry, and later reads
      the clock for its statement. */
  lemma ReadyToSwap(c: Config, start: Instant, filed: seq<Event>, draft: Request, call: Call, stamp: Instant, exit: Exit)
    returns (events: seq<Event>)
    requires var s := RunAll(c, Initial(start), filed);
             && s.clock == start && 1 !in s.processes && draft.id in s.table && s.table[draft.id] == draft
    requires c.backend.Sqlite? && IsDraft(draft) && !Before(draft.expiresAt, start) && !Before(stamp, start)
    requires call.V1? && call.Complete() && call.id == draft.id
    ensures var s, s' := RunAll(c, Initial(start), filed), RunAll(c, Initial(start), events);
            && s'.table == s.table && s'.clock == stamp
            && s'.processes == s.processes[1 := Swapping(call, draft, stamp)]
            && s'.log == s.log + [Look(1, draft.id, Some(Pending))]
  {
    hide Nanos, Format;
    events := Extend(c, start, filed, Arrive(1, Decide(call)));
    events := Extend(c, start, events, Advance(1, Smooth(exit)));
    assert RunAll(c, Initial(start), events).processes[1] == Checking(call, draft);
    events := Extend(c, start, events, Advance(1, Smooth(exit)));
    events := Extend(c, start, events, Tick(stamp));
    events := Extend(c, start, events, Advance(1, Smooth(exit)));
  }

  /** Its statement then decides by that reading. */
  lemma Swaps(c: Config, s: State, draft: Request, call: Call, stamp: Instant, exit: Exit)
    requires c.backend.Sqlite? && draft.id in s.table && s.table[draft.id] == draft && draft.status.Pending?
    requires call.V1? && call.Approving() && call.id == draft.id
    requires 1 in s.processes && s.processes[1] == Swapping(call, draft, stamp)
    ensures var s' := Next(c, s, Advance(1, Smooth(exit)));
            && s'.clock == s.clock && draft.id in s'.table && 1 in s'.processes
            && s'.processes == s.processes[1 := s'.processes[1]]
            && if Live(Sqlite, draft, stamp) then
                 && s'.table[draft.id].status.Approved? && s'.processes[1] == Launching(call, draft)
                 && s'.log == s.log + [Grant(1, draft.id, call.Actor(), stamp, s.clock)]
               else
                 && s'.table[draft.id].status.Pending? && s'.processes[1] == Done(Decide(call), Conflict)
                 && s'.log == s.log + [Reject(1, draft.id, stamp, s.clock)]
  {
    hide Nanos, Format, Live;
  }

  // ---------------------------------------------------------------- expiry

  /** An approval through v1 that reads the clock at `stamp` and takes effect, one way or the other, at `late`. */
  lemma ApprovalsDecideByTheirReading(c: Config, start: Instant, draft: Request, userId: string, token: string, exit: Exit,
                                      stamp: Instant, late: Instant)
    returns (events: seq<Event>)
    requires IsFiled(c, draft, false) && userId != "" && token != ""
    requires !Before(draft.expiresAt, start) && !Before(stamp, start) && !Before(late, stamp)
    ensures var s := RunAll(c, Initial(start), events);
            && s.clock == late && draft.id in s.table
            && if Live(Sqlite, draft, stamp)
               then s.table[draft.id].status.Approved? && Grant(1, draft.id, userId, stamp, late) in s.log
               else s.table[draft.id].status.Pending? && Reject(1, draft.id, stamp, late) in s.log
  {
    hide Move, Nanos, Format, Live, Swap, IsFiled;
    assert c.backend.Sqlite? && IsDraft(draft) by {
      FiledIsDraft(c, draft, false);
    }
    var call := V1(Approve, draft.id, userId, token);
    var filed := FiledAtOnce(c, start, draft, false, exit);
    var ready := ReadyToSwap(c, start, filed, draft, call, stamp, exit);
    var waited := Extend(c, start, ready, Tick(late));
    events := Extend(c, start, waited, Advance(1, Smooth(exit)));
    Swaps(c, RunAll(c, Initial(start), waited), draft, call, stamp, exit);
  }

  lemma FiledIsDraft(c: Config, draft: Request, viaPam: bool)
    requires IsFiled(c, draft, viaPam)
    ensures c.backend.Sqlite? && IsDraft(draft)
  {
  }

  /** The time between reading and effect has no bound: whatever v1 accepts and approves by a live reading can take effect
      at any later time, however long after the expiry. */
  lemma ApprovalsMayCommitLate(c: Config, start: Instant, draft: Request, userId: string, token: string, exit: Exit,
                               late: Instant)
    returns (events: seq<Event>)
    requires IsFiled(c, draft, false) && userId != "" && token != ""
    requires Live(Sqlite, draft, start) && !Before(draft.expiresAt, start) && !Before(late, start)
    ensures var s := RunAll(c, Initial(start), events);
            && s.clock == late && draft.id in s.table && s.table[draft.id].status.Approved?
            && Grant(1, draft.id, userId, start, late) in s.log
  {
    hide IsFiled, RunAll, Live, Nanos;
    events := ApprovalsDecideByTheirReading(c, start, draft, userId, token, exit, start, late);
  }

  /** The readings themselves err by any amount below a second, both ways: a request whose expiry lies that much before
      the reading is approved, and one whose expiry lies that much after it is turned away. */
  lemma ReadingsErrByUpToASecond(c: Config, draft: Request, userId: string, token: string, exit: Exit, error: nat)
    returns (start: Instant, stamp: Instant, late: Request, granted: seq<Event>, early: Request, rejected: seq<Event>)
    requires IsFiled(c, draft, false) && userId != "" && token != "" && 0 < error < SECOND
    ensures late == draft.(expiresAt := late.expiresAt) && Nanos(stamp) == Nanos(late.expiresAt) + error
    ensures Grant(1, draft.id, userId, stamp, stamp) in RunAll(c, Initial(start), granted).log
    ensures early == draft.(expiresAt := early.expiresAt) && Nanos(start) + error == Nanos(early.expiresAt)
    ensures Reject(1, draft.id, start, start) in RunAll(c, Initial(start), rejected).log
  {
    hide IsFiled, RunAll, Live, Nanos, Format, Text.Less;
    TextOrderErrsByUpToASecond(error);
    var a: Instant, b: Instant :| Text.Less(Format(a), Format(b)) && Nanos(a) == Nanos(b) + error;
    LessOnlyOneWay(a, b);
    start, stamp, late, early := b, a, draft.(expiresAt := b), draft.(expiresAt := a);
    assert IsFiled(c, late, false) && IsFiled(c, early, false) by {
      ExpiryIsFree(c, draft, a);
      ExpiryIsFree(c, draft, b);
    }
    LiveByText(late, a);
    LiveByText(early, b);
    granted := ApprovalsDecideByTheirReading(c, b, late, userId, token, exit, a, a);
    rejected := ApprovalsDecideByTheirReading(c, b, early, userId, token, exit, b, b);
  }

  lemma ExpiryIsFree(c: Config, draft: Request, expires: Instant)
    requires IsFiled(c, draft, false)
    ensures IsFiled(c, draft.(expiresAt := expires), false)
  {
  }

  lemma LiveByText(r: Request, now: Instant)
    ensures Live(Sqlite, r, now) <==> Text.Less(Format(now), Format(r.expiresAt))
  {
  }

  lemma LessOnlyOneWay(a: Instant, b: Instant)
    requires Text.Less(Format(a), Format(b))
    ensures !Text.Less(Format(b), Format(a))
  {
    hide Format, Nanos;
    TextOrderIsTimeOrder(a, b);
    TextOrderIsTimeOrder(b, a);
  }

  // ---------------------------------------------------------------- submission against execution

  /** Whatever the command: unless submission through PAM guarantees its execution, there is an allowlist of one trimmed
      entry with which it is filed through PAM, approved through v1, and then refused for not being on the list. */
  lemma UnsafeFilingsDoFail(draft: Request, start: Instant, userId: string, token: string, exit: Exit)
    returns (c: Config, events: seq<Event>)
    requires IsDraft(draft) && draft.command != "" && !SubmissionCheck.IsSafe(draft.command)
    requires Live(Sqlite, draft, start) && !Before(draft.expiresAt, start) && userId != "" && token != ""
    ensures c.backend.Sqlite? && Sql(c) && OneList(c)
    ensures var s := RunAll(c, Initial(start), events);
            && |s.log| == 4 && s.log[0].Submit? && s.log[0].command == draft.command && Files(s, s.log[0].p, true)
            && s.log[3].Run? && s.log[3].id == s.log[0].id && s.log[3].argv == Err(NOT_ALLOWED)
  {
    hide Move, Nanos, Format, Live, SubmissionCheck.IsSafe, PamPermits, EntryPermits, Argv, Outcomes, IsFiled;
    SubmissionCheck.UnsafeIsNeither(draft.command);
    var entry := SubmissionCheck.Refutation(draft.command);
    c := Config(Sqlite, Rules(true, [entry]), [entry], false);
    OneEntry(c, draft, entry);
    var approved := ApprovedAtOnce(c, start, draft, true, userId, token, exit);
    events := Extend(c, start, approved, Advance(1, Smooth(exit)));
    LaunchStep(c, RunAll(c, Initial(start), approved), draft, V1(Approve, draft.id, userId, token), exit);
  }

  lemma OneEntry(c: Config, draft: Request, entry: string)
    requires c == Config(Sqlite, Rules(true, [entry]), [entry], false) && IsDraft(draft) && draft.command != ""
    requires PamPermits(entry, draft.command) && !EntryPermits(entry, draft.command)
    ensures IsFiled(c, draft, true) && Argv(c.rules.allowlist, draft.command) == Err(NOT_ALLOWED)
  {
    hide PamPermits, EntryPermits;
    assert [entry][0] == entry;
  }

  /** A draft that is filed and approved through v1 in one go, up to its execution. */
  lemma ApprovedAtOnce(c: Config, start: Instant, draft: Request, viaPam: bool, userId: string, token: string, exit: Exit)
    returns (events: seq<Event>)
    requires IsFiled(c, draft, viaPam) && userId != "" && token != ""
    requires Live(Sqlite, draft, start) && !Before(draft.expiresAt, start)
    ensures var s := RunAll(c, Initial(start), events);
            var call := V1(Approve, draft.id, userId, token);
            && s.processes.Keys == {0, 1} && s.processes[0] == Done(File(draft, viaPam), WasFiled)
            && s.processes[1] == Launching(call, draft)
            && s.log == [Submit(0, draft.id, draft.command, draft.expiresAt), Look(1, draft.id, Some(Pending)),
                         Grant(1, draft.id, userId, start, start)]
  {
    hide Move, Nanos, Format, Live, Swap, IsFiled;
    FiledIsDraft(c, draft, viaPam);
    var call := V1(Approve, draft.id, userId, token);
    var filed := FiledAtOnce(c, start, draft, viaPam, exit);
    var ready := ReadyToSwap(c, start, filed, draft, call, start, exit);
    events := Extend(c, start, ready, Advance(1, Smooth(exit)));
    Swaps(c, RunAll(c, Initial(start), ready), draft, call, start, exit);
  }

  /** In this run, over one list of trimmed entries, a filing of the command through PAM is refused when it is executed. */
  predicate RefusesFiling(c: Config, start: Instant, events: seq<Event>, i: nat, k: nat, command: string) {
    && Sql(c) && OneList(c)
    && var s := RunAll(c, Initial(start), events);
    && i < |s.log| && k < |s.log| && s.log[i].Submit? && s.log[i].command == command && Files(s, s.log[i].p, true)
    && s.log[k].Run? && s.log[k].id == s.log[i].id && s.log[k].argv == Err(NOT_ALLOWED)
  }

  /** So over all runs, submission through PAM is as good as the executor's own check for exactly the safe commands. */
  lemma SafeFilingsAreNeverRefused(command: string)
    requires command != ""
    ensures SubmissionCheck.IsSafe(command) <==>
            forall c, start, events, i, k :: !RefusesFiling(c, start, events, i, k, command)
  {
    hide RunAll, SubmissionCheck.IsSafe, OneList, Nanos, Format, Live;
    if SubmissionCheck.IsSafe(command) {
      forall c, start, events, i: nat, k: nat
        ensures !RefusesFiling(c, start, events, i, k, command)
      {
        if RefusesFiling(c, start, events, i, k, command) {
          PamFilingsMayFailAgain(c, start, events, i, k);
        }
      }
    } else {
      var draft := Request("id", command, "", "", "", Pending, ZERO_TIME, YEAR_TWO, "", None, 0, "", "", None, None);
      YearTwoIsAhead(draft);
      var c, events := UnsafeFilingsDoFail(draft, ZERO_TIME, "approver", "token", Clean(""));
      assert RefusesFiling(c, ZERO_TIME, events, 0, 3, command);
    }
  }

  const YEAR_TWO: Instant := Fields(2, 1, 1, 0, 0, 0, 0)

  lemma YearTwoIsAhead(draft: Request)
    requires draft.expiresAt == YEAR_TWO
    ensures Live(Sqlite, draft, ZERO_TIME) && !Before(YEAR_TWO, ZERO_TIME)
  {
    hide Format, Seconds;
    SecondsAreOrdered(ZERO_TIME, YEAR_TWO);
    TextOrderIsTimeOrder(ZERO_TIME, YEAR_TWO);
  }

  lemma LaunchStep(c: Config, s: State, draft: Request, call: Call, exit: Exit)
    requires 1 in s.processes && s.processes[1] == Launching(call, draft)
    ensures var s' := Next(c, s, Advance(1, Smooth(exit)));
            var argv := Argv(c.rules.allowlist, draft.command);
            && s'.processes.Keys == s.processes.Keys
            && (forall p :: p in s.processes && p != 1 ==> s'.processes[p] == s.processes[p])
            && s'.log == s.log + [Run(1, call.id, argv, Outcomes(argv, exit))]
  {
    hide Argv, Outcomes;
  }

  // ---------------------------------------------------------------- an id used twice

  /** Over the in-memory store process `f` files the draft, whatever was filed under its id before. */
  lemma FiledInMemory(c: Config, start: Instant, events: seq<Event>, draft: Request, f: ProcessId, exit: Exit)
    returns (filed: seq<Event>)
    requires c.backend.Memory? && IsDraft(draft) && Allowed(c.rules.allowlist, draft.command)
    requires draft.command != "" && (c.requireReason ==> draft.reason != "")
    requires f !in RunAll(c, Initial(start), events).processes
    ensures var s, s' := RunAll(c, Initial(start), events), RunAll(c, Initial(start), filed);
            && s'.table == s.table[draft.id := draft] && s'.clock == s.clock
            && s'.processes == s.processes[f := Done(File(draft, false), WasFiled)]
            && s'.log == s.log + [Submit(f, draft.id, draft.command, draft.expiresAt)]
  {
    hide Nanos, Format, Allowed;
    filed := Extend(c, start, events, Arrive(f, File(draft, false)));
    filed := Extend(c, start, filed, Advance(f, Smooth(exit)));
  }

  /** And process `q` approves it. */
  lemma ApprovedInMemory(c: Config, start: Instant, events: seq<Event>, draft: Request, q: ProcessId, call: Call, exit: Exit)
    returns (won: seq<Event>)
    requires c.backend.Memory? && IsDraft(draft)
    requires call.V1? && call.Approving() && call.Complete() && call.id == draft.id
    requires var s := RunAll(c, Initial(start), events);
             && q !in s.processes && draft.id in s.table && s.table[draft.id] == draft && !Before(draft.expiresAt, s.clock)
    ensures var s, s' := RunAll(c, Initial(start), events), RunAll(c, Initial(start), won);
            && s'.clock == s.clock && s'.processes == s.processes[q := Launching(call, draft)]
            && s'.log == s.log + [Look(q, draft.id, Some(Pending))] + [Grant(q, draft.id, call.Actor(), s.clock, s.clock)]
  {
    hide Nanos, Format, RunAll;
    won := Extend(c, start, events, Arrive(q, Decide(call)));
    won := Extend(c, start, won, Advance(q, Smooth(exit)));
    assert RunAll(c, Initial(start), won).processes[q] == Checking(call, draft);
    won := Extend(c, start, won, Advance(q, Smooth(exit)));
    won := Extend(c, start, won, Advance(q, Smooth(exit)));
    won := Extend(c, start, won, Advance(q, Smooth(exit)));
  }

  /** And executes it. */
  lemma RunInMemory(c: Config, start: Instant, events: seq<Event>, draft: Request, q: ProcessId, call: Call, exit: Exit)
    returns (ran: seq<Event>)
    requires c.backend.Memory? && IsDraft(draft)
    requires call.V1? && call.Approving() && call.Complete() && call.id == draft.id
    requires var s := RunAll(c, Initial(start), events);
             && q !in s.processes && draft.id in s.table && s.table[draft.id] == draft && !Before(draft.expiresAt, s.clock)
    ensures var s, s' := RunAll(c, Initial(start), events), RunAll(c, Initial(start), ran);
            && s'.clock == s.clock && s'.processes.Keys == s.processes.Keys + {q}
            && Count(s'.log, Execution, draft.id) == Count(s.log, Execution, draft.id) + 1
  {
    hide RunAll, Nanos, Format, Argv, Outcomes, Count;
    var won := ApprovedInMemory(c, start, events, draft, q, call, exit);
    ran := Extend(c, start, won, Advance(q, Smooth(exit)));
    var s := RunAll(c, Initial(start), events);
    var argv := Argv(c.rules.allowlist, draft.command);
    var look, grant := Look(q, draft.id, Some(Pending)), Grant(q, draft.id, call.Actor(), s.clock, s.clock);
    CountMore(s.log, look, draft.id);
    CountMore(s.log + [look], grant, draft.id);
    CountMore(s.log + [look] + [grant], Run(q, draft.id, argv, Outcomes(argv, exit)), draft.id);
  }

  lemma CountMore(log: seq<Entry>, e: Entry, id: string)
    ensures Count(log + [e], Execution, id) == Count(log, Execution, id) + if Concerns(e, Execution, id) then 1 else 0
  {
    assert (log + [e])[..|log|] == log;
  }

  /** What the in-memory store needs new ids for: filed a second time, a request is executed a second time. */
  lemma ReusedIdsRunTwice(c: Config, start: Instant, draft: Request, userId: string, token: string, exit: Exit)
    returns (events: seq<Event>)
    requires c.backend.Memory? && IsDraft(draft) && Allowed(c.rules.allowlist, draft.command)
    requires draft.command != "" && (c.requireReason ==> draft.reason != "")
    requires userId != "" && token != "" && !Before(draft.expiresAt, start)
    ensures Count(RunAll(c, Initial(start), events).log, Execution, draft.id) == 2
  {
    hide RunAll, Allowed, Nanos, Count;
    var call := V1(Approve, draft.id, userId, token);
    NothingYet(c, start, draft.id);
    events := FiledInMemory(c, start, [], draft, 0, exit);
    CountMore([], Submit(0, draft.id, draft.command, draft.expiresAt), draft.id);
    events := RunInMemory(c, start, events, draft, 1, call, exit);
    var log := RunAll(c, Initial(start), events).log;
    events := FiledInMemory(c, start, events, draft, 2, exit);
    CountMore(log, Submit(2, draft.id, draft.command, draft.expiresAt), draft.id);
    events := RunInMemory(c, start, events, draft, 3, call, exit);
  }

  lemma NothingYet(c: Config, start: Instant, id: string)
    ensures RunAll(c, Initial(start), []) == State(map[], start, map[], []) && Count([], Execution, id) == 0
  {
  }
}
