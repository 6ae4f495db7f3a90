/** The request life cycle as an atomic machine: one indivisible entry per commit, over real time. */
module Ledger {
  import opened Timestamp
  import opened Wrappers
  import opened Requests
  import opened Executor

  type ProcessId = nat

  /** What an execution came to: standard output, or the error text. */
  datatype Verdict = Success(output: string) | Failure(message: string)

  /** Where a request stands. `Granted`, `Ran` and `Finished` name the process that won the approval. */
  datatype Phase =
    | Open
    | Granted(owner: ProcessId, actor: string)
    | Ran(owner: ProcessId, actor: string, verdict: Verdict)
    | Finished(owner: ProcessId, verdict: Verdict)
    | Refused(actor: string)
    | Lapsed
  {
    predicate OwnedBy(p: ProcessId) {
      (Granted? || Ran? || Finished?) && owner == p
    }

    function Status(): Status {
      match this
      case Open => Pending
      case Granted(_, _) => Approved
      case Ran(_, _, _) => Approved
      case Finished(_, verdict) => if verdict.Success? then Completed else Failed
      case Refused(_) => Denied
      case Lapsed => Expired
    }
  }

  datatype Ticket = Ticket(command: string, expires: Instant, phase: Phase)

  type Book = map<string, Ticket>

  /** One atomic action, by process `p`. `at` is the clock reading the action is based on, `commit` the time at which it
      takes effect when that may be later. */
  datatype Entry =
    | Submit(p: ProcessId, id: string, command: string, expires: Instant)
    | Look(p: ProcessId, id: string, seen: Option<Status>)
    | Grant(p: ProcessId, id: string, actor: string, at: Instant, commit: Instant)
    | Refuse(p: ProcessId, id: string, actor: string, at: Instant, commit: Instant)
    | Reject(p: ProcessId, id: string, at: Instant, commit: Instant)
    | Lapse(p: ProcessId, id: string, at: Instant)
    | LapseAll(p: ProcessId, ids: set<string>, at: Instant, commit: Instant)
    | Run(p: ProcessId, id: string, argv: Result<seq<string>>, verdict: Verdict)
    | Finish(p: ProcessId, id: string)

  /** `textual`: expiry is compared as text. */
  datatype Rules = Rules(textual: bool, allowlist: seq<string>)

  /** How far that may be from real time: less than a second, or not at all. */
  function Tolerance(rules: Rules): nat {
    if rules.textual then SECOND else 1
  }

  predicate IsOpen(b: Book, id: string) {
    id in b && b[id].phase.Open?
  }

  /** The clock reading comes before the expiry. */
  predicate InTime(rules: Rules, expires: Instant, at: Instant) {
    Precedes(rules.textual, at, expires)
  }

  lemma InTimeWithinTolerance(rules: Rules, expires: Instant, at: Instant)
    ensures InTime(rules, expires, at) ==> Nanos(at) < Nanos(expires) + Tolerance(rules)
    ensures !InTime(rules, expires, at) ==> Nanos(expires) < Nanos(at) + Tolerance(rules)
  {
    hide Nanos, Format;
    TextOrderIsTimeOrder(at, expires);
    TextOrderWithinASecond(at, expires);
  }

  predicate Permitted(rules: Rules, b: Book, e: Entry) {
    match e
    case Submit(_, id, _, _) => id !in b
    case Look(_, id, seen) => seen == if id in b then Some(b[id].phase.Status()) else None
    case Grant(_, id, actor, at, _) => IsOpen(b, id) && actor != "" && InTime(rules, b[id].expires, at)
    case Refuse(_, id, actor, at, _) => IsOpen(b, id) && actor != "" && InTime(rules, b[id].expires, at)
    case Reject(_, id, at, _) => IsOpen(b, id) ==> !InTime(rules, b[id].expires, at)
    case Lapse(_, id, at) => IsOpen(b, id) && Before(b[id].expires, at)
    case LapseAll(_, ids, at, _) =>
      && (forall id :: id in ids ==> IsOpen(b, id) && !InTime(rules, b[id].expires, at))
      && (forall id :: id in b && IsOpen(b, id) && id !in ids ==> InTime(rules, b[id].expires, at))
    case Run(p, id, argv, verdict) =>
      && id in b && b[id].phase.Granted? && b[id].phase.owner == p
      && argv == Argv(rules.allowlist, b[id].command)
      && (argv.Err? ==> verdict == Failure(argv.message))
    case Finish(p, id) => id in b && b[id].phase.Ran? && b[id].phase.owner == p
  }

  function After(rules: Rules, b: Book, e: Entry): Book
    requires Permitted(rules, b, e)
  {
    match e
    case Submit(_, id, command, expires) => b[id := Ticket(command, expires, Open)]
    case Look(_, _, _) => b
    case Grant(p, id, actor, _, _) => b[id := b[id].(phase := Granted(p, actor))]
    case Refuse(_, id, actor, _, _) => b[id := b[id].(phase := Phase.Refused(actor))]
    case Reject(_, _, _, _) => b
    case Lapse(_, id, _) => b[id := b[id].(phase := Lapsed)]
    case LapseAll(_, ids, _, _) => map id | id in b :: if id in ids then b[id].(phase := Lapsed) else b[id]
    case Run(p, id, _, verdict) => b[id := b[id].(phase := Ran(p, b[id].phase.actor, verdict))]
    case Finish(p, id) => b[id := b[id].(phase := Finished(p, b[id].phase.verdict))]
  }

  /** The book after a log, if every entry was permitted when it was made. */
  function Replay(rules: Rules, log: seq<Entry>): Option<Book> {
    if log == [] then Some(map[])
    else
      var before := Replay(rules, log[..|log| - 1]);
      if before.Some? && Permitted(rules, before.value, log[|log| - 1])
      then Some(After(rules, before.value, log[|log| - 1]))
      else None
  }

  predicate Legal(rules: Rules, log: seq<Entry>) {
    Replay(rules, log).Some?
  }

  lemma ReplayAppend(rules: Rules, log: seq<Entry>, e: Entry)
    requires Legal(rules, log) && Permitted(rules, Replay(rules, log).value, e)
    ensures Replay(rules, log + [e]) == Some(After(rules, Replay(rules, log).value, e))
  {
    assert (log + [e])[..|log|] == log;
  }

  /** Every prefix of a legal log is legal, and its next entry was permitted there. */
  lemma {:induction false} PrefixIsLegal(rules: Rules, log: seq<Entry>, k: nat)
    requires Legal(rules, log) && k <= |log|
    ensures Legal(rules, log[..k])
    ensures k < |log| ==> Permitted(rules, Replay(rules, log[..k]).value, log[k])
    decreases |log|
  {
    if k == |log| {
      assert log[..k] == log;
    } else if k < |log| - 1 {
      PrefixIsLegal(rules, log[..|log| - 1], k);
      assert log[..|log| - 1][..k] == log[..k];
    }
  }

  /** An entry never touches what another process owns, forgets a request, or alters its command or expiry. */
  lemma EntryFrame(rules: Rules, b: Book, e: Entry, id: string)
    requires Permitted(rules, b, e) && id in b
    ensures var b' := After(rules, b, e);
            && id in b' && b'[id].command == b[id].command && b'[id].expires == b[id].expires
            && (forall q :: q != e.p && b[id].phase.OwnedBy(q) ==> b'[id].phase == b[id].phase)
  {
  }

  // ---------------------------------------------------------------- what every legal log obeys

  /** The four sorts of entry that change a request. */
  datatype Sort = Filing | Decision | Execution | Completion

  predicate Concerns(e: Entry, sort: Sort, id: string) {
    match sort
    case Filing => e.Submit? && e.id == id
    case Decision => ((e.Grant? || e.Refuse? || e.Lapse?) && e.id == id) || (e.LapseAll? && id in e.ids)
    case Execution => e.Run? && e.id == id
    case Completion => e.Finish? && e.id == id
  }

  function Count(log: seq<Entry>, sort: Sort, id: string): nat {
    if log == [] then 0
    else Count(log[..|log| - 1], sort, id) + if Concerns(log[|log| - 1], sort, id) then 1 else 0
  }

  /** How many entries of each sort a request has seen, read off its phase. */
  function Expected(b: Book, sort: Sort, id: string): nat {
    if id !in b then 0
    else
      var phase := b[id].phase;
      match sort
      case Filing => 1
      case Decision => if phase.Open? then 0 else 1
      case Execution => if phase.Ran? || phase.Finished? then 1 else 0
      case Completion => if phase.Finished? then 1 else 0
  }

  lemma EntryCounts(rules: Rules, b: Book, e: Entry, sort: Sort, id: string)
    requires Permitted(rules, b, e)
    ensures Expected(After(rules, b, e), sort, id) == Expected(b, sort, id) + if Concerns(e, sort, id) then 1 else 0
  {
    hide Argv, Nanos;
  }

  /** Each request is filed once, decided at most once, executed at most once and finished at most once: the phase
      tells exactly which of these have happened. */
  lemma {:induction false} OnceEach(rules: Rules, log: seq<Entry>, sort: Sort, id: string)
    requires Legal(rules, log)
    ensures Count(log, sort, id) == Expected(Replay(rules, log).value, sort, id) <= 1
  {
    if log == [] {
    } else {
      var past := log[..|log| - 1];
      OnceEach(rules, past, sort, id);
      EntryCounts(rules, Replay(rules, past).value, log[|log| - 1], sort, id);
    }
  }

  lemma {:induction false} CountAtLeast(log: seq<Entry>, sort: Sort, id: string, k: nat)
    requires k < |log| && Concerns(log[k], sort, id)
    ensures Count(log, sort, id) >= 1 + Count(log[..k], sort, id)
  {
    var past := log[..|log| - 1];
    if k == |past| {
    } else {
      CountAtLeast(past, sort, id, k);
      assert past[..k] == log[..k];
    }
  }

  /** So two entries of one sort about one request are the same entry. */
  lemma OnlyOne(rules: Rules, log: seq<Entry>, sort: Sort, id: string, j: nat, k: nat)
    requires Legal(rules, log) && j < |log| && k < |log|
    requires Concerns(log[j], sort, id) && Concerns(log[k], sort, id)
    ensures j == k
  {
    OnceEach(rules, log, sort, id);
    var lo, hi := if j < k then j else k, if j < k then k else j;
    if lo < hi {
      CountAtLeast(log, sort, id, hi);
      CountAtLeast(log[..hi], sort, id, lo);
    }
  }

  lemma {:induction false} FilingOf(rules: Rules, log: seq<Entry>, id: string) returns (k: nat)
    requires Legal(rules, log) && id in Replay(rules, log).value
    ensures k < |log| && log[k].Submit? && log[k].id == id
    ensures var t := Replay(rules, log).value[id]; log[k].command == t.command && log[k].expires == t.expires
    decreases |log|
  {
    hide Argv, Nanos;
    var past, e := log[..|log| - 1], log[|log| - 1];
    var b := Replay(rules, past).value;
    if id in b {
      k := FilingOf(rules, past, id);
      EntryFrame(rules, b, e, id);
    } else {
      k := |past|;
    }
  }

  lemma {:induction false} GrantOf(rules: Rules, log: seq<Entry>, id: string, p: ProcessId) returns (k: nat)
    requires Legal(rules, log) && id in Replay(rules, log).value && Replay(rules, log).value[id].phase.OwnedBy(p)
    ensures k < |log| && log[k].Grant? && log[k].id == id && log[k].p == p
    ensures InTime(rules, Replay(rules, log).value[id].expires, log[k].at)
    decreases |log|
  {
    hide Argv, Nanos;
    var past, e := log[..|log| - 1], log[|log| - 1];
    var b := Replay(rules, past).value;
    if id in b && b[id].phase.OwnedBy(p) {
      k := GrantOf(rules, past, id, p);
      EntryFrame(rules, b, e, id);
    } else {
      k := |past|;
    }
  }

  /** An approval is never taken back: the request goes on to what its owner makes of it. */
  lemma {:induction false} GrantLasts(rules: Rules, log: seq<Entry>, k: nat)
    requires Legal(rules, log) && k < |log| && log[k].Grant?
    ensures log[k].id in Replay(rules, log).value
    ensures var phase := Replay(rules, log).value[log[k].id].phase;
            phase.OwnedBy(log[k].p) && (phase.Granted? ==> phase.actor == log[k].actor)
    decreases |log|
  {
    hide Argv, Nanos;
    var past, e := log[..|log| - 1], log[|log| - 1];
    if k == |past| {
      assert e == log[k];
    } else {
      GrantLasts(rules, past, k);
      EntryFrame(rules, Replay(rules, past).value, e, log[k].id);
    }
  }

  /** While an approval is unfinished the book names the approver. */
  lemma {:induction false} ActorLasts(rules: Rules, log: seq<Entry>, k: nat)
    requires Legal(rules, log) && k < |log| && log[k].Grant?
    ensures log[k].id in Replay(rules, log).value
    ensures var phase := Replay(rules, log).value[log[k].id].phase;
            phase.Finished? || ((phase.Granted? || phase.Ran?) && phase.actor == log[k].actor)
    decreases |log|
  {
    hide Argv, Nanos;
    var past, e := log[..|log| - 1], log[|log| - 1];
    if k == |past| {
      assert e == log[k];
    } else {
      ActorLasts(rules, past, k);
    }
  }

  /** A denial is final. */
  lemma {:induction false} RefusalLasts(rules: Rules, log: seq<Entry>, k: nat)
    requires Legal(rules, log) && k < |log| && log[k].Refuse?
    ensures log[k].id in Replay(rules, log).value
    ensures Replay(rules, log).value[log[k].id].phase == Phase.Refused(log[k].actor)
    decreases |log|
  {
    hide Argv, Nanos;
    var past, e := log[..|log| - 1], log[|log| - 1];
    if k == |past| {
      assert e == log[k];
    } else {
      RefusalLasts(rules, past, k);
    }
  }

  /** An execution leads to nothing but its being finished, with the same verdict. */
  lemma {:induction false} RunLasts(rules: Rules, log: seq<Entry>, k: nat)
    requires Legal(rules, log) && k < |log| && log[k].Run?
    ensures log[k].id in Replay(rules, log).value
    ensures var phase := Replay(rules, log).value[log[k].id].phase;
            (phase.Ran? || phase.Finished?) && phase.verdict == log[k].verdict
    decreases |log|
  {
    hide Argv, Nanos;
    var past, e := log[..|log| - 1], log[|log| - 1];
    if k == |past| {
      assert e == log[k];
    } else {
      RunLasts(rules, past, k);
    }
  }

  /** What has been counted has happened. */
  lemma {:induction false} CountedEntry(log: seq<Entry>, sort: Sort, id: string) returns (k: nat)
    requires Count(log, sort, id) > 0
    ensures k < |log| && Concerns(log[k], sort, id)
    decreases |log|
  {
    if Concerns(log[|log| - 1], sort, id) {
      k := |log| - 1;
    } else {
      k := CountedEntry(log[..|log| - 1], sort, id);
    }
  }

  /** The process that runs a command had won its approval before, in time; and the argument vector is the
      allowlist's answer for the command as it was filed. */
  lemma RunsAreAuthorized(rules: Rules, log: seq<Entry>, k: nat) returns (i: nat, j: nat)
    requires Legal(rules, log) && k < |log| && log[k].Run?
    ensures i < k && log[i].Submit? && log[i].id == log[k].id
    ensures log[k].argv == Argv(rules.allowlist, log[i].command)
    ensures j < k && log[j].Grant? && log[j].id == log[k].id && log[j].p == log[k].p
    ensures InTime(rules, log[i].expires, log[j].at)
  {
    hide Argv, Nanos;
    PrefixIsLegal(rules, log, k);
    i := FilingOf(rules, log[..k], log[k].id);
    j := GrantOf(rules, log[..k], log[k].id, log[k].p);
  }

  /** A request that is denied or expires, at any time, is not executed at any time: the one decision about an
      executed request is the approval won by the process that ran it. */
  lemma RefusedNeverRun(rules: Rules, log: seq<Entry>, j: nat, k: nat)
    requires Legal(rules, log) && j < |log| && k < |log|
    requires log[k].Run? && Concerns(log[j], Decision, log[k].id)
    ensures log[j].Grant? && log[j].p == log[k].p && j < k
  {
    var i, g := RunsAreAuthorized(rules, log, k);
    OnlyOne(rules, log, Decision, log[k].id, g, j);
  }

  /** Approvals and denials beat the expiry, and the first decision attempted on a filed request is turned away only
      when the expiry has come. */
  lemma DecisionsRespectExpiry(rules: Rules, log: seq<Entry>, k: nat) returns (i: nat)
    requires Legal(rules, log) && k < |log| && (log[k].Grant? || log[k].Refuse? || log[k].Reject?)
    requires log[k].Reject? ==> Count(log[..k], Filing, log[k].id) == 1 && Count(log[..k], Decision, log[k].id) == 0
    ensures i < k && log[i].Submit? && log[i].id == log[k].id
    ensures InTime(rules, log[i].expires, log[k].at) <==> !log[k].Reject?
    ensures !log[k].Reject? ==> Nanos(log[k].at) < Nanos(log[i].expires) + Tolerance(rules)
    ensures log[k].Reject? ==> Nanos(log[i].expires) < Nanos(log[k].at) + Tolerance(rules)
  {
    hide Nanos;
    PrefixIsLegal(rules, log, k);
    OnceEach(rules, log[..k], Filing, log[k].id);
    OnceEach(rules, log[..k], Decision, log[k].id);
    i := FilingOf(rules, log[..k], log[k].id);
    InTimeWithinTolerance(rules, log[i].expires, log[k].at);
  }

  /** Nothing expires early: an expiry comes less than the tolerance before its time. */
  lemma LapsesAreDue(rules: Rules, log: seq<Entry>, k: nat, id: string) returns (i: nat)
    requires Legal(rules, log) && k < |log| && Concerns(log[k], Decision, id) && (log[k].Lapse? || log[k].LapseAll?)
    ensures i < k && log[i].Submit? && log[i].id == id
    ensures log[k].LapseAll? ==> !InTime(rules, log[i].expires, log[k].at)
    ensures Nanos(log[i].expires) < Nanos(log[k].at) + Tolerance(rules)
  {
    hide Nanos, InTime;
    PrefixIsLegal(rules, log, k);
    i := FilingOf(rules, log[..k], id);
    InTimeWithinTolerance(rules, log[i].expires, log[k].at);
  }
}
