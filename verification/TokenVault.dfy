/** Biometric tokens: a read/write lock, an expiry that is checked twice, and a sliding window of validity. */
module TokenVault {
  import opened Wrappers

  const MINUTE: int := 60_000_000_000

  /** Times are nanoseconds. */
  datatype Token = Token(value: string, deviceInfo: string, enrolledAt: int, lastUsedAt: int)

  type Vault = map<string, Token>

  /** `TokenExpirationChecker` for a token that exists. */
  predicate Fresh(ttlMinutes: int, token: Token, now: int) {
    ttlMinutes > 0 && now - token.lastUsedAt <= ttlMinutes * MINUTE
  }

  // ---------------------------------------------------------------- the concurrent system

  type ProcessId = nat

  datatype Job =
    | Use(user: string, presented: string)         // PAM approve or deny: retrieve, compare, store again
    | Enroll(user: string, value: string, device: string)
    | Revoke(user: string)

  /** Where a stored token comes from: an enrolment, or the use of the token `read`, whose check was passed at `at`. */
  datatype Source = Enrolment | Renewal(read: Token, at: int)

  /** `Refused` covers a token that cannot be read, is missing, stale or another one. */
  datatype Outcome = Succeeded | Refused | NotStored

  /** The read lock is held in `Reading` and `ReadLeaving`, the write lock in `Rereading`, `Rechecking`, `Deleting`,
      `Storing`, `Removing` and `Leaving`. */
  datatype Process =
    | Starting(job: Job)
    | Dating(job: Job, enrolledAt: int)       // between the two clock readings of an enrolment
    | Reading(job: Job)
    | ReadLeaving(next: Process)
    | Checking(job: Job, token: Token)
    | AwaitingRecheck(job: Job)
    | Rereading(job: Job)
    | Rechecking(job: Job, token: Token)
    | Deleting(job: Job, token: Token, at: int)
    | Matching(job: Job, token: Token, at: int)
    | Stamping(job: Job, token: Token, at: int)
    | AwaitingStore(job: Job, token: Token, source: Source)
    | Storing(job: Job, token: Token, source: Source)
    | Removing(job: Job)
    | Leaving(next: Process)
    | Finished(job: Job, outcome: Outcome)

  datatype Lock = Free | Readers(ps: set<ProcessId>) | Writer(p: ProcessId)

  datatype Record =
    | Stored(p: ProcessId, user: string, token: Token, source: Source, when: int)
    | Accepted(p: ProcessId, user: string, token: Token, at: int)    // a presented value matched the retrieved token
    | Purged(p: ProcessId, user: string, token: Token, at: int)

  datatype State = State(vault: Vault, lock: Lock, clock: int, processes: map<ProcessId, Process>, history: seq<Record>)

  datatype Event =
    | Tick(time: int)
    | Arrive(p: ProcessId, job: Job)
    | Advance(p: ProcessId, fails: bool)      // `fails`: the token store reports an error and does nothing

  function Become(s: State, p: ProcessId, process: Process): State {
    s.(processes := s.processes[p := process])
  }

  function Note(s: State, r: Record): State {
    s.(history := s.history + [r])
  }

  /** Acquires the write lock for `p`, which waits while anyone holds the lock. */
  function Acquire(s: State, p: ProcessId, process: Process): State {
    if s.lock.Free? then Become(s.(lock := Writer(p)), p, process) else s
  }

  function ReadLocked(s: State, p: ProcessId, process: Process): State {
    match s.lock
    case Free => Become(s.(lock := Readers({p})), p, process)
    case Readers(ps) => Become(s.(lock := Readers(ps + {p})), p, process)
    case Writer(_) => s
  }

  function ReadUnlocked(s: State, p: ProcessId, process: Process): State {
    match s.lock
    case Readers(ps) => Become(s.(lock := if ps - {p} == {} then Free else Readers(ps - {p})), p, process)
    case _ => s
  }

  /** One step of process `p`. */
  function Move(ttlMinutes: int, s: State, p: ProcessId, process: Process, fails: bool): State {
    match process
    case Starting(Use(_, _)) => ReadLocked(s, p, Reading(process.job))
    case Starting(Enroll(_, _, _)) => Become(s, p, Dating(process.job, s.clock))
    case Dating(job, enrolledAt) =>
      Become(s, p, if job.Enroll? then AwaitingStore(job, Token(job.value, job.device, enrolledAt, s.clock), Enrolment)
                   else Finished(job, Refused))
    case Starting(Revoke(_)) => Acquire(s, p, Removing(process.job))
    case Reading(job) =>
      Become(s, p, ReadLeaving(
        if fails || job.user !in s.vault then Finished(job, Refused)
        else Checking(job, s.vault[job.user])))
    case ReadLeaving(next) => ReadUnlocked(s, p, next)
    case Checking(job, token) =>
      Become(s, p, if ttlMinutes > 0 && !Fresh(ttlMinutes, token, s.clock) then AwaitingRecheck(job)
                   else Matching(job, token, s.clock))
    case AwaitingRecheck(job) => Acquire(s, p, Rereading(job))
    case Rereading(job) =>
      Become(s, p, if fails || job.user !in s.vault then Leaving(Finished(job, Refused))
                   else Rechecking(job, s.vault[job.user]))
    case Rechecking(job, token) =>
      Become(s, p, if Fresh(ttlMinutes, token, s.clock) then Leaving(Matching(job, token, s.clock))
                   else Deleting(job, token, s.clock))
    case Deleting(job, token, at) =>
      if fails then Become(s, p, Leaving(Finished(job, Refused)))
      else Note(Become(s.(vault := s.vault - {job.user}), p, Leaving(Finished(job, Refused))), Purged(p, job.user, token, at))
    case Matching(job, token, at) =>
      if job.Use? && token.value == job.presented
      then Note(Become(s, p, Stamping(job, token, at)), Accepted(p, job.user, token, at))
      else Become(s, p, Finished(job, Refused))
    case Stamping(job, token, at) =>
      Become(s, p, AwaitingStore(job, token.(lastUsedAt := s.clock), Renewal(token, at)))
    case AwaitingStore(job, token, source) => Acquire(s, p, Storing(job, token, source))
    case Storing(job, token, source) =>
      if fails then Become(s, p, Leaving(Finished(job, NotStored)))
      else Note(Become(s.(vault := s.vault[job.user := token]), p, Leaving(Finished(job, Succeeded))),
                Stored(p, job.user, token, source, s.clock))
    case Removing(job) =>
      if fails then Become(s, p, Leaving(Finished(job, NotStored)))
      else Become(s.(vault := s.vault - {job.user}), p, Leaving(Finished(job, Succeeded)))
    case Leaving(next) => Become(s.(lock := Free), p, next)
    case Finished(_, _) => s
  }

  function Next(ttlMinutes: int, s: State, e: Event): State {
    match e
    case Tick(time) => if time < s.clock then s else s.(clock := time)
    case Arrive(p, job) => if p in s.processes then s else Become(s, p, Starting(job))
    case Advance(p, fails) => if p in s.processes then Move(ttlMinutes, s, p, s.processes[p], fails) else s
  }

  function Initial(start: int): State {
    State(map[], Free, start, map[], [])
  }

  function RunAll(ttlMinutes: int, s: State, events: seq<Event>): State {
    if events == [] then s
    else Next(ttlMinutes, RunAll(ttlMinutes, s, events[..|events| - 1]), events[|events| - 1])
  }

  // ---------------------------------------------------------------- invariant

  predicate HoldsRead(process: Process) {
    process.Reading? || process.ReadLeaving?
  }

  predicate HoldsWrite(process: Process) {
    process.Rereading? || process.Rechecking? || process.Deleting? || process.Storing? || process.Removing? || process.Leaving?
  }

  predicate Inside(process: Process) {
    HoldsRead(process) || HoldsWrite(process)
  }

  /** Where a process may stand after giving a lock back. */
  predicate Unlocked(process: Process) {
    process.Checking? || process.Matching? || process.Finished?
  }

  /** This very token was stored for the user, at `end` or before. */
  predicate WasStored(history: seq<Record>, user: string, token: Token, end: int) {
    exists k :: 0 <= k < |history| && history[k].Stored? && history[k].user == user && history[k].token == token
                && history[k].when <= end
  }

  /** A use of this very token was accepted for the user, by the check made at `at`. */
  predicate WasAccepted(history: seq<Record>, user: string, token: Token, at: int) {
    exists k :: 0 <= k < |history| && history[k].Accepted? && history[k].user == user && history[k].token == token
                && history[k].at == at
  }

  /** A token that may be stored by `clock`: newly dated, or the token of an accepted use dated after its check. */
  predicate Sourced(history: seq<Record>, user: string, token: Token, source: Source, clock: int) {
    && token.lastUsedAt <= clock
    && match source
       case Enrolment => token.enrolledAt <= token.lastUsedAt
       case Renewal(read, at) =>
         && WasAccepted(history, user, read, at)
         && token == read.(lastUsedAt := token.lastUsedAt) && at <= token.lastUsedAt
  }

  predicate Storable(history: seq<Record>, job: Job, token: Token, source: Source, clock: int) {
    && Sourced(history, job.user, token, source, clock)
    && (if source.Enrolment? then job.Enroll? && token.value == job.value else job.Use? && job.presented == token.value)
  }

  predicate ProcessHolds(ttlMinutes: int, s: State, process: Process) {
    match process
    case ReadLeaving(next) => Unlocked(next) && ProcessHolds(ttlMinutes, s, next)
    case Leaving(next) => Unlocked(next) && ProcessHolds(ttlMinutes, s, next)
    case Checking(job, token) => WasStored(s.history, job.user, token, s.clock)
    case Rechecking(job, token) => job.user in s.vault && s.vault[job.user] == token && ttlMinutes > 0
    case Deleting(job, token, at) =>
      job.user in s.vault && s.vault[job.user] == token && at <= s.clock && ttlMinutes > 0 && !Fresh(ttlMinutes, token, at)
    case AwaitingRecheck(_) => ttlMinutes > 0
    case Rereading(_) => ttlMinutes > 0
    case Dating(_, enrolledAt) => enrolledAt <= s.clock
    case Matching(job, token, at) =>
      at <= s.clock && WasStored(s.history, job.user, token, at) && (ttlMinutes > 0 ==> Fresh(ttlMinutes, token, at))
    case Stamping(job, token, at) =>
      at <= s.clock && job.Use? && token.value == job.presented && WasAccepted(s.history, job.user, token, at)
    case AwaitingStore(job, token, source) => Storable(s.history, job, token, source, s.clock)
    case Storing(job, token, source) => Storable(s.history, job, token, source, s.clock)
    case _ => true
  }

  /** The lock knows exactly who is inside. */
  predicate LockHolds(s: State) {
    && (forall p :: p in s.processes && HoldsWrite(s.processes[p]) ==> s.lock == Writer(p))
    && (forall p :: p in s.processes && HoldsRead(s.processes[p]) ==> s.lock.Readers? && p in s.lock.ps)
    && (s.lock.Writer? ==> s.lock.p in s.processes && HoldsWrite(s.processes[s.lock.p]))
    && (s.lock.Readers? ==> s.lock.ps != {} && forall p :: p in s.lock.ps ==> p in s.processes && HoldsRead(s.processes[p]))
  }

  predicate RecordHolds(ttlMinutes: int, past: seq<Record>, r: Record) {
    match r
    case Stored(_, user, token, source, when) => Sourced(past, user, token, source, when)
    case Accepted(_, user, token, at) => WasStored(past, user, token, at) && (ttlMinutes > 0 ==> Fresh(ttlMinutes, token, at))
    case Purged(_, user, token, at) => ttlMinutes > 0 && !Fresh(ttlMinutes, token, at)
  }

  predicate Invariant(ttlMinutes: int, s: State) {
    && LockHolds(s)
    && (forall user :: user in s.vault ==> WasStored(s.history, user, s.vault[user], s.clock))
    && (forall p :: p in s.processes ==> ProcessHolds(ttlMinutes, s, s.processes[p]))
    && (forall k :: 0 <= k < |s.history| ==> RecordHolds(ttlMinutes, s.history[..k], s.history[k]))
  }

  lemma StoredStays(past: seq<Record>, more: seq<Record>, user: string, token: Token, end: int, later: int)
    requires WasStored(past, user, token, end) && past <= more && end <= later
    ensures WasStored(more, user, token, later)
  {
    var k :| 0 <= k < |past| && past[k].Stored? && past[k].user == user && past[k].token == token && past[k].when <= end;
    assert more[k] == past[k];
  }

  lemma AcceptedStays(past: seq<Record>, more: seq<Record>, user: string, token: Token, at: int)
    requires WasAccepted(past, user, token, at) && past <= more
    ensures WasAccepted(more, user, token, at)
  {
    var k :| 0 <= k < |past| && past[k].Accepted? && past[k].user == user && past[k].token == token && past[k].at == at;
    assert more[k] == past[k];
  }

  lemma JustAccepted(past: seq<Record>, r: Record)
    requires r.Accepted?
    ensures WasAccepted(past + [r], r.user, r.token, r.at)
  {
    assert (past + [r])[|past|] == r;
  }

  /** Whether the process still relies on what the store holds. */
  predicate ReliesOnVault(process: Process) {
    process.Rechecking? || process.Deleting?
  }

  lemma {:induction false} ProcessFrame(ttlMinutes: int, s: State, s': State, process: Process)
    requires ProcessHolds(ttlMinutes, s, process)
    requires s.history <= s'.history && s.clock <= s'.clock && (s.vault == s'.vault || !ReliesOnVault(process))
    ensures ProcessHolds(ttlMinutes, s', process)
    decreases process
  {
    hide Fresh, WasStored, WasAccepted;
    match process
    case ReadLeaving(next) => ProcessFrame(ttlMinutes, s, s', next);
    case Leaving(next) => ProcessFrame(ttlMinutes, s, s', next);
    case Checking(job, token) => StoredStays(s.history, s'.history, job.user, token, s.clock, s'.clock);
    case Matching(job, token, at) => StoredStays(s.history, s'.history, job.user, token, at, at);
    case Stamping(job, token, at) => AcceptedStays(s.history, s'.history, job.user, token, at);
    case AwaitingStore(job, _, source) =>
      if source.Renewal? { AcceptedStays(s.history, s'.history, job.user, source.read, source.at); }
    case Storing(job, _, source) =>
      if source.Renewal? { AcceptedStays(s.history, s'.history, job.user, source.read, source.at); }
    case _ =>
  }

  /** How the lock may change while `p` goes from `before` to `after`. */
  predicate LockMoves(lock: Lock, lock': Lock, p: ProcessId, before: Process, after: Process) {
    || (lock' == lock && HoldsRead(after) == HoldsRead(before) && HoldsWrite(after) == HoldsWrite(before))
    || (lock.Free? && lock' == Writer(p) && HoldsWrite(after))
    || (lock.Free? && lock' == Readers({p}) && HoldsRead(after))
    || (lock.Readers? && lock' == Readers(lock.ps + {p}) && HoldsRead(after))
    || (lock == Writer(p) && lock'.Free? && !HoldsRead(after) && !HoldsWrite(after))
    || (&& lock.Readers? && p in lock.ps && !HoldsRead(after) && !HoldsWrite(after)
        && lock' == if lock.ps - {p} == {} then Free else Readers(lock.ps - {p}))
  }

  lemma MoveMovesLock(ttlMinutes: int, s: State, p: ProcessId, fails: bool)
    requires p in s.processes && ProcessHolds(ttlMinutes, s, s.processes[p])
    requires HoldsWrite(s.processes[p]) ==> s.lock == Writer(p)
    requires HoldsRead(s.processes[p]) ==> s.lock.Readers? && p in s.lock.ps
    ensures var s' := Move(ttlMinutes, s, p, s.processes[p], fails);
            && p in s'.processes && LockMoves(s.lock, s'.lock, p, s.processes[p], s'.processes[p])
  {
    hide WasStored, Fresh, Storable;
  }

  lemma LockMovesKeep(s: State, lock': Lock, p: ProcessId, after: Process)
    requires LockHolds(s) && p in s.processes && LockMoves(s.lock, lock', p, s.processes[p], after)
    ensures LockHolds(s.(lock := lock', processes := s.processes[p := after]))
  {
    hide HoldsRead, HoldsWrite;
    NotBoth(after);
    NotBoth(s.processes[p]);
    if s.lock.Readers? {
      assert forall q :: q in s.lock.ps && q != p ==> q in s.lock.ps - {p};
    }
  }

  lemma NotBoth(process: Process)
    ensures !(HoldsRead(process) && HoldsWrite(process))
  {
  }

  /** A step of `p` touches no other process, and the vault only under the write lock. */
  lemma MoveFrame(ttlMinutes: int, s: State, p: ProcessId, fails: bool)
    requires p in s.processes
    ensures var s' := Move(ttlMinutes, s, p, s.processes[p], fails);
            && p in s'.processes && s'.processes == s.processes[p := s'.processes[p]] && s'.clock == s.clock
            && (s'.vault != s.vault ==> HoldsWrite(s.processes[p]))
  {
    hide Fresh, Move;
    if Inside(s.processes[p]) {
      InsideMoveFrame(ttlMinutes, s, p, fails);
    } else {
      OutsideMoveFrame(ttlMinutes, s, p, fails);
    }
  }

  lemma InsideMoveFrame(ttlMinutes: int, s: State, p: ProcessId, fails: bool)
    requires p in s.processes && Inside(s.processes[p])
    ensures var s' := Move(ttlMinutes, s, p, s.processes[p], fails);
            && p in s'.processes && s'.processes == s.processes[p := s'.processes[p]] && s'.clock == s.clock
            && (s'.vault != s.vault ==> HoldsWrite(s.processes[p]))
  {
    hide Fresh;
  }

  lemma OutsideMoveFrame(ttlMinutes: int, s: State, p: ProcessId, fails: bool)
    requires p in s.processes && !Inside(s.processes[p])
    ensures var s' := Move(ttlMinutes, s, p, s.processes[p], fails);
            && p in s'.processes && s'.processes == s.processes[p := s'.processes[p]] && s'.clock == s.clock
            && s'.vault == s.vault
  {
    hide Fresh;
  }

  /** A step adds at most one record. */
  lemma MoveNotes(ttlMinutes: int, s: State, p: ProcessId, fails: bool)
    requires p in s.processes
    ensures var s' := Move(ttlMinutes, s, p, s.processes[p], fails);
            s'.history == s.history || (|s'.history| > 0 && s'.history == s.history + [s'.history[|s'.history| - 1]])
  {
    hide Fresh;
  }

  /** A step changes the lock's holders and the lock together. */
  lemma MoveKeepsLock(ttlMinutes: int, s: State, p: ProcessId, fails: bool)
    requires Invariant(ttlMinutes, s) && p in s.processes
    ensures LockHolds(Move(ttlMinutes, s, p, s.processes[p], fails))
  {
    hide Move, LockMoves, ProcessHolds, HoldsRead, HoldsWrite, RecordHolds, WasStored;
    var s' := Move(ttlMinutes, s, p, s.processes[p], fails);
    MoveFrame(ttlMinutes, s, p, fails);
    MoveMovesLock(ttlMinutes, s, p, fails);
    LockMovesKeep(s, s'.lock, p, s'.processes[p]);
  }

  lemma MoveKeepsVault(ttlMinutes: int, s: State, p: ProcessId, fails: bool)
    requires p in s.processes && forall user :: user in s.vault ==> WasStored(s.history, user, s.vault[user], s.clock)
    ensures var s' := Move(ttlMinutes, s, p, s.processes[p], fails);
            forall user :: user in s'.vault ==> WasStored(s'.history, user, s'.vault[user], s'.clock)
  {
    hide WasStored, Fresh;
    var process := s.processes[p];
    var s' := Move(ttlMinutes, s, p, process, fails);
    MoveNotes(ttlMinutes, s, p, fails);
    hide Move;
    forall user | user in s'.vault
      ensures WasStored(s'.history, user, s'.vault[user], s'.clock)
    {
      if user in s.vault && s.vault[user] == s'.vault[user] {
        StoredStays(s.history, s'.history, user, s.vault[user], s.clock, s'.clock);
      } else {
        MoveStores(ttlMinutes, s, p, fails, user);
        JustStored(s.history, s'.history[|s.history|], user, s'.vault[user], s'.clock);
      }
    }
  }

  lemma MoveStores(ttlMinutes: int, s: State, p: ProcessId, fails: bool, user: string)
    requires p in s.processes
    requires var s' := Move(ttlMinutes, s, p, s.processes[p], fails);
             user in s'.vault && (user !in s.vault || s.vault[user] != s'.vault[user])
    ensures var s' := Move(ttlMinutes, s, p, s.processes[p], fails);
            && |s'.history| == |s.history| + 1 && s'.history == s.history + [s'.history[|s.history|]]
            && (var r := s'.history[|s.history|]; r.Stored? && r.user == user && r.token == s'.vault[user] && r.when == s'.clock)
  {
    hide Fresh;
  }

  /** The record a step adds is justified by the past. */
  lemma MoveRecords(ttlMinutes: int, s: State, p: ProcessId, fails: bool)
    requires p in s.processes && ProcessHolds(ttlMinutes, s, s.processes[p])
    ensures var s' := Move(ttlMinutes, s, p, s.processes[p], fails);
            |s'.history| > |s.history| ==> RecordHolds(ttlMinutes, s.history, s'.history[|s.history|])
  {
    hide WasStored, WasAccepted, Fresh;
  }

  /** And so is where the process now stands. */
  lemma MoveJustifies(ttlMinutes: int, s: State, p: ProcessId, fails: bool)
    requires p in s.processes && ProcessHolds(ttlMinutes, s, s.processes[p])
    requires forall user :: user in s.vault ==> WasStored(s.history, user, s.vault[user], s.clock)
    ensures var s' := Move(ttlMinutes, s, p, s.processes[p], fails);
            p in s'.processes && ProcessHolds(ttlMinutes, s', s'.processes[p])
  {
    hide Move, ProcessHolds, WasStored;
    if Inside(s.processes[p]) {
      InsideMoveJustifies(ttlMinutes, s, p, fails);
    } else {
      OutsideMoveJustifies(ttlMinutes, s, p, fails);
    }
  }

  lemma InsideMoveJustifies(ttlMinutes: int, s: State, p: ProcessId, fails: bool)
    requires p in s.processes && ProcessHolds(ttlMinutes, s, s.processes[p]) && Inside(s.processes[p])
    requires forall user :: user in s.vault ==> WasStored(s.history, user, s.vault[user], s.clock)
    ensures var s' := Move(ttlMinutes, s, p, s.processes[p], fails);
            p in s'.processes && ProcessHolds(ttlMinutes, s', s'.processes[p])
  {
    hide WasStored, WasAccepted, Fresh, Storable;
    var process := s.processes[p];
    var s' := Move(ttlMinutes, s, p, process, fails);
    match process
    case ReadLeaving(next) => if s'.processes[p] == next { ProcessFrame(ttlMinutes, s, s', next); }
    case Leaving(next) => ProcessFrame(ttlMinutes, s, s', next);
    case _ =>
  }

  lemma OutsideMoveJustifies(ttlMinutes: int, s: State, p: ProcessId, fails: bool)
    requires p in s.processes && ProcessHolds(ttlMinutes, s, s.processes[p]) && !Inside(s.processes[p])
    requires forall user :: user in s.vault ==> WasStored(s.history, user, s.vault[user], s.clock)
    ensures var s' := Move(ttlMinutes, s, p, s.processes[p], fails);
            p in s'.processes && ProcessHolds(ttlMinutes, s', s'.processes[p])
  {
    hide WasStored, WasAccepted, Fresh;
    var process := s.processes[p];
    var s' := Move(ttlMinutes, s, p, process, fails);
    if process.Matching? && s'.processes[p].Stamping? {
      JustAccepted(s.history, s'.history[|s.history|]);
    }
  }

  lemma JustStored(past: seq<Record>, r: Record, user: string, token: Token, end: int)
    requires r.Stored? && r.user == user && r.token == token && r.when <= end
    ensures WasStored(past + [r], user, token, end)
  {
    assert (past + [r])[|past|] == r;
  }

  lemma EventKeeps(ttlMinutes: int, s: State, e: Event)
    requires Invariant(ttlMinutes, s)
    ensures Invariant(ttlMinutes, Next(ttlMinutes, s, e))
  {
    hide Move, RecordHolds, WasStored, Fresh, Storable, ProcessHolds;
    var s' := Next(ttlMinutes, s, e);
    if e.Advance? {
      if e.p in s.processes {
        AdvanceKeeps(ttlMinutes, s, e.p, e.fails);
      }
    } else {
      forall user | user in s.vault
        ensures WasStored(s.history, user, s.vault[user], s'.clock)
      {
        StoredStays(s.history, s.history, user, s.vault[user], s.clock, s'.clock);
      }
      forall q | q in s'.processes
        ensures ProcessHolds(ttlMinutes, s', s'.processes[q])
      {
        if q in s.processes {
          ProcessFrame(ttlMinutes, s, s', s.processes[q]);
        } else {
          NewcomerHolds(ttlMinutes, s', e.job);
        }
      }
    }
  }

  lemma AdvanceKeeps(ttlMinutes: int, s: State, p: ProcessId, fails: bool)
    requires Invariant(ttlMinutes, s) && p in s.processes
    ensures Invariant(ttlMinutes, Move(ttlMinutes, s, p, s.processes[p], fails))
  {
    hide Move, RecordHolds, WasStored, Fresh, Storable, ProcessHolds, HoldsRead, HoldsWrite;
    var s' := Move(ttlMinutes, s, p, s.processes[p], fails);
    MoveFrame(ttlMinutes, s, p, fails);
    MoveKeepsLock(ttlMinutes, s, p, fails);
    MoveKeepsVault(ttlMinutes, s, p, fails);
    MoveJustifies(ttlMinutes, s, p, fails);
    MoveKeepsRecords(ttlMinutes, s, p, fails);
    hide LockHolds;
    VaultIsStable(ttlMinutes, s, p, fails);
    forall q | q in s'.processes && q != p
      ensures ProcessHolds(ttlMinutes, s', s'.processes[q])
    {
      ProcessFrame(ttlMinutes, s, s', s.processes[q]);
    }
  }

  /** A step of `p` leaves the tokens alone while another process relies on them. */
  lemma VaultIsStable(ttlMinutes: int, s: State, p: ProcessId, fails: bool)
    requires LockHolds(s) && p in s.processes
    ensures var s' := Move(ttlMinutes, s, p, s.processes[p], fails);
            forall q :: q in s.processes && q != p ==> s.vault == s'.vault || !ReliesOnVault(s.processes[q])
  {
    hide Move;
    MoveFrame(ttlMinutes, s, p, fails);
  }

  lemma MoveKeepsRecords(ttlMinutes: int, s: State, p: ProcessId, fails: bool)
    requires Invariant(ttlMinutes, s) && p in s.processes
    ensures var s' := Move(ttlMinutes, s, p, s.processes[p], fails);
            && s.history <= s'.history
            && forall k :: 0 <= k < |s'.history| ==> RecordHolds(ttlMinutes, s'.history[..k], s'.history[k])
  {
    hide Move, RecordHolds, ProcessHolds, WasStored, LockHolds;
    var s' := Move(ttlMinutes, s, p, s.processes[p], fails);
    MoveNotes(ttlMinutes, s, p, fails);
    MoveRecords(ttlMinutes, s, p, fails);
    forall k | 0 <= k < |s'.history|
      ensures RecordHolds(ttlMinutes, s'.history[..k], s'.history[k])
    {
      if k < |s.history| {
        assert s'.history[..k] == s.history[..k];
      } else {
        assert s'.history[..k] == s.history;
      }
    }
  }

  lemma NewcomerHolds(ttlMinutes: int, s: State, job: Job)
    ensures ProcessHolds(ttlMinutes, s, Starting(job))
  {
  }

  lemma {:induction false} InvariantHolds(ttlMinutes: int, start: int, events: seq<Event>)
    ensures Invariant(ttlMinutes, RunAll(ttlMinutes, Initial(start), events))
    decreases |events|
  {
    hide Next, Invariant;
    if events == [] {
      InvariantStarts(ttlMinutes, start);
    } else {
      InvariantHolds(ttlMinutes, start, events[..|events| - 1]);
      EventKeeps(ttlMinutes, RunAll(ttlMinutes, Initial(start), events[..|events| - 1]), events[|events| - 1]);
    }
  }

  lemma InvariantStarts(ttlMinutes: int, start: int)
    ensures Invariant(ttlMinutes, Initial(start))
  {
  }

  // ---------------------------------------------------------------- clock readings

  /** The times a process works with. */
  predicate Carries(process: Process, time: int) {
    match process
    case Dating(_, enrolledAt) => time == enrolledAt
    case ReadLeaving(next) => Carries(next, time)
    case Leaving(next) => Carries(next, time)
    case Deleting(_, _, at) => time == at
    case Matching(_, _, at) => time == at
    case Stamping(_, _, at) => time == at
    case AwaitingStore(_, token, source) => DatedAt(token, source, time)
    case Storing(_, token, source) => DatedAt(token, source, time)
    case _ => false
  }

  predicate DatedAt(token: Token, source: Source, time: int) {
    time == token.lastUsedAt || time == if source.Enrolment? then token.enrolledAt else source.at
  }

  /** The times a record tells of. */
  predicate Tells(r: Record, time: int) {
    match r
    case Stored(_, _, token, source, when) => time == when || DatedAt(token, source, time)
    case Accepted(_, _, _, at) => time == at
    case Purged(_, _, _, at) => time == at
  }

  /** Event `m` of the run is a step of process `p` at clock `time`. */
  predicate ReadsClock(ttlMinutes: int, start: int, events: seq<Event>, m: nat, p: ProcessId, time: int) {
    && m < |events| && events[m].Advance? && events[m].p == p
    && var s := RunAll(ttlMinutes, Initial(start), events[..m]);
    && p in s.processes && s.clock == time
  }

  lemma LeavingCarries(next: Process, time: int)
    ensures Carries(ReadLeaving(next), time) == Carries(next, time) == Carries(Leaving(next), time)
  {
  }

  lemma MoveCarries(ttlMinutes: int, s: State, p: ProcessId, fails: bool, time: int)
    requires p in s.processes
    ensures var s' := Move(ttlMinutes, s, p, s.processes[p], fails);
            && (p in s'.processes && Carries(s'.processes[p], time) ==> Carries(s.processes[p], time) || time == s.clock)
            && (|s'.history| > |s.history| && Tells(s'.history[|s.history|], time) ==>
                  s'.history[|s.history|].p == p && (Carries(s.processes[p], time) || time == s.clock))
  {
    hide Fresh;
    var s' := Move(ttlMinutes, s, p, s.processes[p], fails);
    if p in s'.processes && (s'.processes[p].ReadLeaving? || s'.processes[p].Leaving?) {
      LeavingCarries(s'.processes[p].next, time);
    }
  }

  /** A process works only with times that it has read off the clock itself, after it arrived. */
  lemma {:induction false} TimesAreReadings(ttlMinutes: int, start: int, events: seq<Event>, p: ProcessId, time: int)
    returns (m: nat)
    requires var s := RunAll(ttlMinutes, Initial(start), events); p in s.processes && Carries(s.processes[p], time)
    ensures ReadsClock(ttlMinutes, start, events, m, p, time)
    decreases |events|
  {
    hide Move, Carries;
    var past, e := events[..|events| - 1], events[|events| - 1];
    var s := RunAll(ttlMinutes, Initial(start), past);
    if e.Advance? && e.p in s.processes {
      MoveFrame(ttlMinutes, s, e.p, e.fails);
      MoveCarries(ttlMinutes, s, e.p, e.fails, time);
    } else if e.Arrive? {
      NothingCarried(e.job, time);
    }
    if p in s.processes && Carries(s.processes[p], time) {
      m := TimesAreReadings(ttlMinutes, start, past, p, time);
      assert past[..m] == events[..m];
    } else {
      m := |past|;
    }
  }

  lemma NothingCarried(job: Job, time: int)
    ensures !Carries(Starting(job), time)
  {
  }

  /** So every time on record, of an enrolment, a check, a renewal or a purge, was read by the process on record. */
  lemma {:induction false} RecordsTellReadings(ttlMinutes: int, start: int, events: seq<Event>, k: nat, time: int)
    returns (m: nat)
    requires var history := RunAll(ttlMinutes, Initial(start), events).history; k < |history| && Tells(history[k], time)
    ensures ReadsClock(ttlMinutes, start, events, m, RunAll(ttlMinutes, Initial(start), events).history[k].p, time)
    decreases |events|
  {
    hide Move, Carries, Tells;
    var past, e := events[..|events| - 1], events[|events| - 1];
    var s := RunAll(ttlMinutes, Initial(start), past);
    if e.Advance? && e.p in s.processes {
      MoveNotes(ttlMinutes, s, e.p, e.fails);
    }
    if k < |s.history| {
      m := RecordsTellReadings(ttlMinutes, start, past, k, time);
      assert past[..m] == events[..m];
    } else {
      MoveCarries(ttlMinutes, s, e.p, e.fails, time);
      if Carries(s.processes[e.p], time) {
        m := TimesAreReadings(ttlMinutes, start, past, e.p, time);
        assert past[..m] == events[..m];
      } else {
        m := |past|;
      }
    }
  }

  // ---------------------------------------------------------------- safety over all runs

  /** Whoever makes a user's token disappear either revokes it on request, or holds the write lock and removes a token
      last used longer ago than the limit, which is in minutes: a refresh that landed after the first, unlocked check
      survives. */
  lemma OnlyStaleTokensArePurged(ttlMinutes: int, start: int, events: seq<Event>, e: Event, user: string)
    requires var s := RunAll(ttlMinutes, Initial(start), events);
             user in s.vault && user !in Next(ttlMinutes, s, e).vault
    ensures var s := RunAll(ttlMinutes, Initial(start), events);
            && e.Advance? && e.p in s.processes && s.lock == Writer(e.p)
            && (|| (s.processes[e.p].Removing? && s.processes[e.p].job == Revoke(user))
                || (ttlMinutes > 0 && s.clock - s.vault[user].lastUsedAt > ttlMinutes * 60_000_000_000))
  {
    hide RunAll, WasStored, RecordHolds;
    InvariantHolds(ttlMinutes, start, events);
    OnlyRevocationsRemove(ttlMinutes, start, events);
  }

  predicate RemovesByRequest(process: Process) {
    process.Removing? ==> process.job.Revoke?
  }

  lemma MoveRemoves(ttlMinutes: int, s: State, p: ProcessId, fails: bool)
    requires p in s.processes && ProcessHolds(ttlMinutes, s, s.processes[p]) && RemovesByRequest(s.processes[p])
    ensures var s' := Move(ttlMinutes, s, p, s.processes[p], fails);
            p in s'.processes && RemovesByRequest(s'.processes[p])
  {
    hide Fresh, WasStored, WasAccepted, Storable;
  }

  /** Only a revocation stands where it removes a token on request. */
  lemma {:induction false} OnlyRevocationsRemove(ttlMinutes: int, start: int, events: seq<Event>)
    ensures var s := RunAll(ttlMinutes, Initial(start), events);
            forall p :: p in s.processes ==> RemovesByRequest(s.processes[p])
    decreases |events|
  {
    hide Move, ProcessHolds, RecordHolds, WasStored, LockHolds;
    if events == [] {
    } else {
      var past, e := events[..|events| - 1], events[|events| - 1];
      OnlyRevocationsRemove(ttlMinutes, start, past);
      InvariantHolds(ttlMinutes, start, past);
      var s := RunAll(ttlMinutes, Initial(start), past);
      if e.Advance? && e.p in s.processes {
        MoveFrame(ttlMinutes, s, e.p, e.fails);
        MoveRemoves(ttlMinutes, s, e.p, e.fails);
      }
    }
  }

  /** Every token purged was last used longer ago than the limit, by the clock reading on record. */
  lemma PurgedTokensWereStale(ttlMinutes: int, start: int, events: seq<Event>, k: nat)
    requires var history := RunAll(ttlMinutes, Initial(start), events).history; k < |history| && history[k].Purged?
    ensures var r := RunAll(ttlMinutes, Initial(start), events).history[k];
            ttlMinutes > 0 && r.at - r.token.lastUsedAt > ttlMinutes * 60_000_000_000
  {
    hide RunAll;
    InvariantHolds(ttlMinutes, start, events);
  }

  /** What `RetrieveToken` hands back was stored for this user, and passed the validity check by a clock reading that
      the process took during this call. */
  lemma RetrievedTokensAreFresh(ttlMinutes: int, start: int, events: seq<Event>, p: ProcessId) returns (m: nat)
    requires var s := RunAll(ttlMinutes, Initial(start), events); p in s.processes && s.processes[p].Matching?
    ensures var s := RunAll(ttlMinutes, Initial(start), events);
            && WasStored(s.history, s.processes[p].job.user, s.processes[p].token, s.processes[p].at)
            && (ttlMinutes > 0 ==> Fresh(ttlMinutes, s.processes[p].token, s.processes[p].at))
            && s.processes[p].at <= s.clock && ReadsClock(ttlMinutes, start, events, m, p, s.processes[p].at)
  {
    hide RunAll, WasStored, RecordHolds, Fresh, ReadsClock;
    InvariantHolds(ttlMinutes, start, events);
    m := TimesAreReadings(ttlMinutes, start, events, p, RunAll(ttlMinutes, Initial(start), events).processes[p].at);
  }

  /** Everybody waiting for the lock waits for a process that can move. */
  lemma NoDeadlock(ttlMinutes: int, start: int, events: seq<Event>, p: ProcessId)
    requires var s := RunAll(ttlMinutes, Initial(start), events); p in s.processes && !s.processes[p].Finished?
    ensures var s := RunAll(ttlMinutes, Initial(start), events);
            exists q :: q in s.processes && Move(ttlMinutes, s, q, s.processes[q], false).processes[q] != s.processes[q]
  {
    hide RunAll, WasStored, RecordHolds, Fresh, Storable, ProcessHolds;
    InvariantHolds(ttlMinutes, start, events);
    var s := RunAll(ttlMinutes, Initial(start), events);
    var q := match s.lock
      case Free => p
      case Writer(w) => w
      case Readers(ps) => var r :| r in ps; r;
    assert q in s.processes;
    MovesWhenInside(ttlMinutes, s, q);
  }

  lemma MovesWhenInside(ttlMinutes: int, s: State, q: ProcessId)
    requires LockHolds(s) && q in s.processes && !s.processes[q].Finished?
    requires s.lock.Free? || HoldsRead(s.processes[q]) || HoldsWrite(s.processes[q])
    ensures Move(ttlMinutes, s, q, s.processes[q], false).processes[q] != s.processes[q]
  {
    hide Fresh;
  }

  // ---------------------------------------------------------------- the sliding window

  /** A store of a token and an accepted use of what it stored: positions in the history. */
  datatype Link = Link(store: nat, use: nat)

  /** The use follows the store, by the clock too, concerns the same user and token, and was checked within the limit. */
  predicate Uses(ttlMinutes: int, history: seq<Record>, user: string, link: Link) {
    && link.store < link.use < |history|
    && history[link.store].Stored? && history[link.store].user == user
    && history[link.use].Accepted? && history[link.use].user == user
    && history[link.use].token == history[link.store].token
    && history[link.store].when <= history[link.use].at
    && history[link.use].at - history[link.store].token.lastUsedAt <= ttlMinutes * 60_000_000_000
  }

  /** What is stored is the token of this use, dated between its check and the time of storing. */
  predicate Renews(history: seq<Record>, use: nat, store: nat) {
    && use < store < |history| && history[use].Accepted? && history[store].Stored?
    && history[use].user == history[store].user
    && history[store].source == Renewal(history[use].token, history[use].at)
    && history[store].token == history[use].token.(lastUsedAt := history[store].token.lastUsedAt)
    && history[use].at <= history[store].token.lastUsedAt <= history[store].when
  }

  /** From an enrolment through uses, each within the limit of the one before, to the last use. */
  predicate Chain(ttlMinutes: int, history: seq<Record>, user: string, chain: seq<Link>) {
    && chain != []
    && (forall i :: 0 <= i < |chain| ==> Uses(ttlMinutes, history, user, chain[i]))
    && history[chain[0].store].source.Enrolment?
    && (forall i :: 0 < i < |chain| ==> Renews(history, chain[i - 1].use, chain[i].store))
  }

  lemma {:induction false} UsesHaveChains(ttlMinutes: int, history: seq<Record>, k: nat) returns (chain: seq<Link>)
    requires ttlMinutes > 0 && forall i :: 0 <= i < |history| ==> RecordHolds(ttlMinutes, history[..i], history[i])
    requires k < |history| && history[k].Accepted?
    ensures Chain(ttlMinutes, history, history[k].user, chain) && chain[|chain| - 1].use == k
    decreases k
  {
    hide RecordHolds, Uses, Renews;
    var j := StoreOf(ttlMinutes, history, k);
    var last := Link(j, k);
    if history[j].source.Enrolment? {
      chain := [last];
    } else {
      var u := UseOf(ttlMinutes, history, j);
      var past := UsesHaveChains(ttlMinutes, history, u);
      chain := past + [last];
    }
  }

  lemma StoreOf(ttlMinutes: int, history: seq<Record>, k: nat) returns (j: nat)
    requires ttlMinutes > 0 && k < |history| && history[k].Accepted? && RecordHolds(ttlMinutes, history[..k], history[k])
    ensures j < k && history[j].Stored? && Uses(ttlMinutes, history, history[k].user, Link(j, k))
  {
    var user, token := history[k].user, history[k].token;
    j :| 0 <= j < k && history[..k][j].Stored? && history[..k][j].user == user && history[..k][j].token == token
         && history[..k][j].when <= history[k].at;
  }

  lemma UseOf(ttlMinutes: int, history: seq<Record>, k: nat) returns (j: nat)
    requires k < |history| && history[k].Stored? && history[k].source.Renewal?
    requires RecordHolds(ttlMinutes, history[..k], history[k])
    ensures j < k && history[j].Accepted? && history[j].user == history[k].user && Renews(history, j, k)
  {
    var user, source := history[k].user, history[k].source;
    j :| 0 <= j < k && history[..k][j].Accepted? && history[..k][j].user == user && history[..k][j].token == source.read
         && history[..k][j].at == source.at;
  }

  /** With a validity limit, every accepted token check for a value goes back, through accepted uses each within the
      limit of the one before, to an enrolment of that very value for that user; and the first date in the chain is what
      the clock showed at event `m`, a step of the enrolling process. */
  lemma AcceptedUsesTraceToEnrolment(ttlMinutes: int, start: int, events: seq<Event>, k: nat)
    returns (chain: seq<Link>, m: nat)
    requires ttlMinutes > 0
    requires var history := RunAll(ttlMinutes, Initial(start), events).history; k < |history| && history[k].Accepted?
    ensures var history := RunAll(ttlMinutes, Initial(start), events).history;
            && Chain(ttlMinutes, history, history[k].user, chain) && chain[|chain| - 1].use == k
            && history[chain[0].store].token.value == history[k].token.value
            && (var enrolled := history[chain[0].store];
                ReadsClock(ttlMinutes, start, events, m, enrolled.p, enrolled.token.lastUsedAt))
  {
    hide RunAll, RecordHolds, ReadsClock;
    InvariantHolds(ttlMinutes, start, events);
    var history := RunAll(ttlMinutes, Initial(start), events).history;
    chain := UsesHaveChains(ttlMinutes, history, k);
    ChainKeepsValue(ttlMinutes, history, history[k].user, chain);
    m := RecordsTellReadings(ttlMinutes, start, events, chain[0].store, history[chain[0].store].token.lastUsedAt);
  }

  lemma {:induction false} ChainKeepsValue(ttlMinutes: int, history: seq<Record>, user: string, chain: seq<Link>)
    requires Chain(ttlMinutes, history, user, chain)
    ensures history[chain[0].store].token.value == history[chain[|chain| - 1].use].token.value
    decreases |chain|
  {
    if |chain| == 1 {
    } else {
      ChainKeepsValue(ttlMinutes, history, user, chain[..|chain| - 1]);
    }
  }

  // ---------------------------------------------------------------- one process, as it sees the system

  /** The next step takes the lock. */
  predicate Acquires(process: Process) {
    (process.Starting? && !process.job.Enroll?) || process.AwaitingRecheck? || process.AwaitingStore?
  }

  /** What one step meets: the clock, whether the token store fails, and, where the step takes the lock, what the other
      processes have made of the tokens by then. While it holds the lock they change nothing. */
  datatype Moment = Moment(clock: int, fails: bool, vault: Vault)

  /** One step of a process: the tokens as it last saw them, and where it stands. */
  function Alone(ttlMinutes: int, seen: Vault, process: Process, m: Moment): (Vault, Process) {
    var lock := if HoldsWrite(process) then Writer(0) else if HoldsRead(process) then Readers({0}) else Free;
    var s := State(if Acquires(process) then m.vault else seen, lock, m.clock, map[0 := process], []);
    var s' := Move(ttlMinutes, s, 0, process, m.fails);
    (s'.vault, if 0 in s'.processes then s'.processes[0] else process)
  }

  function Solo(ttlMinutes: int, seen: Vault, process: Process, moments: seq<Moment>): (Vault, Process) {
    if moments == [] then (seen, process)
    else
      var (v, before) := Solo(ttlMinutes, seen, process, moments[..|moments| - 1]);
      Alone(ttlMinutes, v, before, moments[|moments| - 1])
  }

  /** `p`'s step in the system is its step alone, or it has to wait. */
  lemma MoveIsAlone(ttlMinutes: int, s: State, p: ProcessId, fails: bool, seen: Vault)
    requires LockHolds(s) && p in s.processes && (Inside(s.processes[p]) ==> seen == s.vault)
    ensures var s' := Move(ttlMinutes, s, p, s.processes[p], fails);
            var (v, after) := Alone(ttlMinutes, seen, s.processes[p], Moment(s.clock, fails, s.vault));
            && p in s'.processes
            && ((s'.processes[p] == s.processes[p] && s'.vault == s.vault)
                || (s'.processes[p] == after && (Inside(after) ==> v == s'.vault)))
  {
    hide Fresh, Move, Alone, LockHolds;
    assert Guarded(s, p) by {
      GuardedByLock(s, p);
    }
    if Inside(s.processes[p]) {
      InsideMoveIsAlone(ttlMinutes, s, p, fails);
    } else {
      OutsideMoveIsAlone(ttlMinutes, s, p, fails, seen);
    }
  }

  /** The lock as far as it concerns `p`. */
  predicate Guarded(s: State, p: ProcessId)
    requires p in s.processes
  {
    && (HoldsRead(s.processes[p]) ==> s.lock.Readers? && p in s.lock.ps)
    && (HoldsWrite(s.processes[p]) ==> s.lock == Writer(p))
  }

  lemma GuardedByLock(s: State, p: ProcessId)
    requires LockHolds(s) && p in s.processes
    ensures Guarded(s, p)
  {
  }

  lemma InsideMoveIsAlone(ttlMinutes: int, s: State, p: ProcessId, fails: bool)
    requires p in s.processes && Guarded(s, p) && Inside(s.processes[p])
    ensures var s' := Move(ttlMinutes, s, p, s.processes[p], fails);
            && p in s'.processes
            && (s'.vault, s'.processes[p]) == Alone(ttlMinutes, s.vault, s.processes[p], Moment(s.clock, fails, s.vault))
  {
    hide Fresh;
  }

  lemma OutsideMoveIsAlone(ttlMinutes: int, s: State, p: ProcessId, fails: bool, seen: Vault)
    requires p in s.processes && !Inside(s.processes[p])
    ensures var s' := Move(ttlMinutes, s, p, s.processes[p], fails);
            var (v, after) := Alone(ttlMinutes, seen, s.processes[p], Moment(s.clock, fails, s.vault));
            && p in s'.processes && s'.vault == s.vault
            && (s'.processes[p] == s.processes[p] || (s'.processes[p] == after && (Inside(after) ==> v == s.vault)))
  {
    hide Fresh, Alone, Move;
    if Acquires(s.processes[p]) {
      AcquiringMoveIsAlone(ttlMinutes, s, p, fails, seen);
    } else {
      PlainMoveIsAlone(ttlMinutes, s, p, fails, seen);
    }
  }

  lemma AcquiringMoveIsAlone(ttlMinutes: int, s: State, p: ProcessId, fails: bool, seen: Vault)
    requires p in s.processes && Acquires(s.processes[p])
    ensures var s' := Move(ttlMinutes, s, p, s.processes[p], fails);
            && p in s'.processes && s'.vault == s.vault
            && (s'.processes[p] == s.processes[p]
                || (s.vault, s'.processes[p]) == Alone(ttlMinutes, seen, s.processes[p], Moment(s.clock, fails, s.vault)))
  {
    hide Fresh;
  }

  lemma PlainMoveIsAlone(ttlMinutes: int, s: State, p: ProcessId, fails: bool, seen: Vault)
    requires p in s.processes && !Acquires(s.processes[p]) && !Inside(s.processes[p])
    ensures var s' := Move(ttlMinutes, s, p, s.processes[p], fails);
            && p in s'.processes && s'.vault == s.vault && !Inside(s'.processes[p])
            && (seen, s'.processes[p]) == Alone(ttlMinutes, seen, s.processes[p], Moment(s.clock, fails, s.vault))
  {
    hide Fresh;
  }

  /** Nobody changes the tokens while `p` holds the lock, in either mode. */
  lemma OthersWait(ttlMinutes: int, s: State, e: Event, p: ProcessId)
    requires LockHolds(s) && p in s.processes && Inside(s.processes[p]) && !(e.Advance? && e.p == p)
    ensures Next(ttlMinutes, s, e).vault == s.vault
  {
    hide Move, HoldsRead, HoldsWrite;
    NotBoth(s.processes[p]);
    if e.Advance? && e.p in s.processes {
      MoveFrame(ttlMinutes, s, e.p, e.fails);
    }
  }

  /** Every process of every run does what it would do alone, given the moments it met. */
  lemma {:induction false} RunsAreSolo(ttlMinutes: int, start: int, events: seq<Event>, p: ProcessId)
    returns (job: Job, moments: seq<Moment>)
    requires p in RunAll(ttlMinutes, Initial(start), events).processes
    ensures var s := RunAll(ttlMinutes, Initial(start), events);
            var (v, process) := Solo(ttlMinutes, map[], Starting(job), moments);
            process == s.processes[p] && (Inside(process) ==> v == s.vault)
    decreases |events|
  {
    hide Move, Inside, Acquires, Alone, Invariant, LockHolds;
    var past, e := events[..|events| - 1], events[|events| - 1];
    var s := RunAll(ttlMinutes, Initial(start), past);
    if p !in s.processes {
      if e.Advance? && e.p in s.processes {
        MoveFrame(ttlMinutes, s, e.p, e.fails);
      }
      job, moments := e.job, [];
      NewcomersAreOutside(job);
    } else {
      job, moments := RunsAreSolo(ttlMinutes, start, past, p);
      InvariantHolds(ttlMinutes, start, past);
      assert LockHolds(s) by {
        LockIsHeld(ttlMinutes, s);
      }
      var (v, process) := Solo(ttlMinutes, map[], Starting(job), moments);
      if e.Advance? && e.p == p {
        MoveIsAlone(ttlMinutes, s, p, e.fails, v);
        var s' := Move(ttlMinutes, s, p, process, e.fails);
        if s'.processes[p] != process || s'.vault != s.vault {
          var before := moments;
          moments := before + [Moment(s.clock, e.fails, s.vault)];
          assert moments[..|before|] == before;
        }
      } else {
        if e.Advance? && e.p in s.processes {
          MoveFrame(ttlMinutes, s, e.p, e.fails);
        }
        if Inside(process) {
          OthersWait(ttlMinutes, s, e, p);
        }
      }
    }
  }

  lemma NewcomersAreOutside(job: Job)
    ensures !Inside(Starting(job))
  {
  }

  lemma LockIsHeld(ttlMinutes: int, s: State)
    requires Invariant(ttlMinutes, s)
    ensures LockHolds(s)
  {
  }

  lemma SoloStep(ttlMinutes: int, seen: Vault, process: Process, moments: seq<Moment>, k: nat)
    requires k < |moments|
    ensures var (v, before) := Solo(ttlMinutes, seen, process, moments[..k]);
            Solo(ttlMinutes, seen, process, moments[..k + 1]) == Alone(ttlMinutes, v, before, moments[k])
  {
    assert moments[..k + 1][..k] == moments[..k];
  }

  // The steps of `RetrieveToken`, one by one.

  lemma ReadingSteps(ttlMinutes: int, v: Vault, job: Job, m0: Moment, m1: Moment, m2: Moment)
    requires job.Use?
    ensures var w := m0.vault;
            var next := if m1.fails || job.user !in w then Finished(job, Refused) else Checking(job, w[job.user]);
            && Alone(ttlMinutes, v, Starting(job), m0) == (w, Reading(job))
            && Alone(ttlMinutes, w, Reading(job), m1) == (w, ReadLeaving(next))
            && Alone(ttlMinutes, w, ReadLeaving(next), m2) == (w, next)
  {
  }

  lemma CheckingStep(ttlMinutes: int, v: Vault, job: Job, token: Token, m: Moment)
    ensures Alone(ttlMinutes, v, Checking(job, token), m)
            == (v, if ttlMinutes > 0 && !Fresh(ttlMinutes, token, m.clock) then AwaitingRecheck(job)
                   else Matching(job, token, m.clock))
  {
  }

  lemma LockingSteps(ttlMinutes: int, v: Vault, job: Job, m: Moment)
    ensures Alone(ttlMinutes, v, AwaitingRecheck(job), m) == (m.vault, Rereading(job))
    ensures Alone(ttlMinutes, v, Rereading(job), m)
            == (v, if m.fails || job.user !in v then Leaving(Finished(job, Refused)) else Rechecking(job, v[job.user]))
  {
  }

  lemma RecheckingSteps(ttlMinutes: int, v: Vault, job: Job, token: Token, m: Moment)
    ensures Alone(ttlMinutes, v, Rechecking(job, token), m)
            == (v, if Fresh(ttlMinutes, token, m.clock) then Leaving(Matching(job, token, m.clock))
                   else Deleting(job, token, m.clock))
  {
  }

  lemma RevokingSteps(ttlMinutes: int, v: Vault, user: string, m0: Moment, m1: Moment, m2: Moment)
    ensures var job, w := Revoke(user), m0.vault;
            var w', next := if m1.fails then w else w - {user}, Finished(job, if m1.fails then NotStored else Succeeded);
            && Alone(ttlMinutes, v, Starting(job), m0) == (w, Removing(job))
            && Alone(ttlMinutes, w, Removing(job), m1) == (w', Leaving(next))
            && Alone(ttlMinutes, w', Leaving(next), m2) == (w', next)
  {
  }

  lemma DeletingStep(ttlMinutes: int, v: Vault, job: Job, token: Token, at: int, m: Moment)
    ensures Alone(ttlMinutes, v, Deleting(job, token, at), m)
            == (if m.fails then v else v - {job.user}, Leaving(Finished(job, Refused)))
  {
  }

  lemma LeavingStep(ttlMinutes: int, v: Vault, next: Process, m: Moment)
    ensures Alone(ttlMinutes, v, Leaving(next), m) == (v, next)
  {
  }

  // ---------------------------------------------------------------- the methods, and who calls them

  /** The token manager. Each method is the straight-line program of which the steps above are the parts; `k` counts the
      steps, and taking the lock is where the tokens may have changed. */
  class Pam {
    const ttlMinutes: int
    var tokens: Vault

    constructor (ttlMinutes: int)
      ensures this.ttlMinutes == ttlMinutes && tokens == map[]
    {
      this.ttlMinutes := ttlMinutes;
      tokens := map[];
    }

    /** `StoreToken`, reached after `k` steps of a larger program that began as `first`. */
    method StoreToken(user: string, token: Token, moments: seq<Moment>, k: nat,
                      ghost seen: Vault, ghost first: Process, ghost job: Job, ghost source: Source)
      returns (outcome: Outcome)
      requires k + 3 <= |moments| && job.user == user
      requires (tokens, AwaitingStore(job, token, source)) == Solo(ttlMinutes, seen, first, moments[..k])
      modifies this
      ensures (tokens, Finished(job, outcome)) == Solo(ttlMinutes, seen, first, moments[..k + 3])
    {
      hide Solo;
      SoloStep(ttlMinutes, seen, first, moments, k);
      SoloStep(ttlMinutes, seen, first, moments, k + 1);
      SoloStep(ttlMinutes, seen, first, moments, k + 2);
      tokens := moments[k].vault;
      if moments[k + 1].fails {
        return NotStored;
      }
      tokens := tokens[user := token];
      return Succeeded;
    }

    /** `DeleteToken`. */
    method DeleteToken(user: string, moments: seq<Moment>) returns (outcome: Outcome)
      requires |moments| == 3
      modifies this
      ensures (tokens, Finished(Revoke(user), outcome))
              == Solo(ttlMinutes, old(tokens), Starting(Revoke(user)), moments)
    {
      hide Solo, Alone;
      ghost var seen, first := tokens, Starting(Revoke(user));
      RevokingSteps(ttlMinutes, tokens, user, moments[0], moments[1], moments[2]);
      assert Solo(ttlMinutes, seen, first, moments[..0]) == (seen, first) by {
        SoloStarts(ttlMinutes, seen, first, moments);
      }
      SoloStep(ttlMinutes, seen, first, moments, 0);
      SoloStep(ttlMinutes, seen, first, moments, 1);
      SoloStep(ttlMinutes, seen, first, moments, 2);
      assert moments[..3] == moments;
      tokens := moments[0].vault;
      if moments[1].fails {
        return NotStored;
      }
      tokens := tokens - {user};
      return Succeeded;
    }

    /** `RetrieveToken`: the read lock is given back before the write lock is asked for. */
    method RetrieveToken(user: string, moments: seq<Moment>, ghost job: Job)
      returns (r: Result<Option<Token>>, k: nat, ghost at: int)
      requires job.Use? && job.user == user && |moments| >= 9
      modifies this
      ensures k <= |moments| && (r.Ok? && r.value.Some? ==> k <= 8)
      ensures Solo(ttlMinutes, old(tokens), Starting(job), moments[..k]) ==
              (tokens, if r.Ok? && r.value.Some? then Matching(job, r.value.value, at) else Finished(job, Refused))
    {
      hide Solo, Alone, Fresh;
      ghost var seen, first := tokens, Starting(job);
      SoloStarts(ttlMinutes, seen, first, moments);
      SoloStep(ttlMinutes, seen, first, moments, 0);
      SoloStep(ttlMinutes, seen, first, moments, 1);
      SoloStep(ttlMinutes, seen, first, moments, 2);
      ReadingSteps(ttlMinutes, tokens, job, moments[0], moments[1], moments[2]);
      tokens, at := moments[0].vault, 0;
      if moments[1].fails {
        return Err("store error"), 3, at;
      }
      if user !in tokens {
        return Ok(None), 3, at;
      }
      var token := tokens[user];
      SoloStep(ttlMinutes, seen, first, moments, 3);
      CheckingStep(ttlMinutes, tokens, job, token, moments[3]);
      if ttlMinutes > 0 && !Fresh(ttlMinutes, token, moments[3].clock) {
        assert Solo(ttlMinutes, seen, first, moments[..4]) == (tokens, AwaitingRecheck(job));
        r, k, at := Recheck(user, moments, seen, first, job);
        return;
      }
      return Ok(Some(token)), 4, moments[3].clock;
    }

    /** The part of `RetrieveToken` under the write lock. */
    method Recheck(user: string, moments: seq<Moment>, ghost seen: Vault, ghost first: Process, ghost job: Job)
      returns (r: Result<Option<Token>>, k: nat, ghost at: int)
      requires job.Use? && job.user == user && |moments| >= 9
      requires Solo(ttlMinutes, seen, first, moments[..4]) == (tokens, AwaitingRecheck(job))
      modifies this
      ensures k <= |moments| && (r.Ok? && r.value.Some? ==> k <= 8)
      ensures Solo(ttlMinutes, seen, first, moments[..k]) ==
              (tokens, if r.Ok? && r.value.Some? then Matching(job, r.value.value, at) else Finished(job, Refused))
    {
      hide Solo, Alone, Fresh;
      SoloStep(ttlMinutes, seen, first, moments, 4);
      LockingSteps(ttlMinutes, tokens, job, moments[4]);
      tokens, at := moments[4].vault, 0;
      SoloStep(ttlMinutes, seen, first, moments, 5);
      LockingSteps(ttlMinutes, tokens, job, moments[5]);
      SoloStep(ttlMinutes, seen, first, moments, 6);
      LeavingStep(ttlMinutes, tokens, Finished(job, Refused), moments[6]);
      if moments[5].fails {
        return Err("store error"), 7, at;
      }
      if user !in tokens {
        return Ok(None), 7, at;
      }
      var freshToken := tokens[user];
      RecheckingSteps(ttlMinutes, tokens, job, freshToken, moments[6]);
      SoloStep(ttlMinutes, seen, first, moments, 7);
      if Fresh(ttlMinutes, freshToken, moments[6].clock) {
        LeavingStep(ttlMinutes, tokens, Matching(job, freshToken, moments[6].clock), moments[7]);
        return Ok(Some(freshToken)), 8, moments[6].clock;
      }
      DeletingStep(ttlMinutes, tokens, job, freshToken, moments[6].clock, moments[7]);
      SoloStep(ttlMinutes, seen, first, moments, 8);
      if moments[7].fails {
        LeavingStep(ttlMinutes, tokens, Finished(job, Refused), moments[8]);
        return Err("token expired and failed to delete"), 9, at;
      }
      tokens := tokens - {user};
      LeavingStep(ttlMinutes, tokens, Finished(job, Refused), moments[8]);
      return Err("token expired"), 9, at;
    }

    /** What PAM approve and deny do with the token a caller presents: retrieve, compare, store with a new date. */
    method UseToken(user: string, presented: string, moments: seq<Moment>) returns (outcome: Outcome, k: nat)
      requires |moments| >= 13
      modifies this
      ensures k <= |moments|
      ensures (tokens, Finished(Use(user, presented), outcome))
              == Solo(ttlMinutes, old(tokens), Starting(Use(user, presented)), moments[..k])
    {
      hide Solo, Fresh;
      ghost var seen, job := tokens, Use(user, presented);
      var stored;
      ghost var at;
      stored, k, at := RetrieveToken(user, moments, job);
      if stored.Err? || stored.value.None? {
        return Refused, k;
      }
      var token := stored.value.value;
      SoloStep(ttlMinutes, seen, Starting(job), moments, k);
      if token.value != presented {
        return Refused, k + 1;
      }
      SoloStep(ttlMinutes, seen, Starting(job), moments, k + 1);
      var used := token.(lastUsedAt := moments[k + 1].clock);
      outcome := StoreToken(user, used, moments, k + 2, seen, Starting(job), job, Renewal(token, at));
      k := k + 5;
    }

    /** What `handleEnroll` does once the caller is let through. */
    method EnrollDevice(user: string, value: string, device: string, moments: seq<Moment>) returns (outcome: Outcome)
      requires |moments| == 5
      modifies this
      ensures (tokens, Finished(Enroll(user, value, device), outcome))
              == Solo(ttlMinutes, old(tokens), Starting(Enroll(user, value, device)), moments)
    {
      hide Solo;
      ghost var seen, job := tokens, Enroll(user, value, device);
      SoloStarts(ttlMinutes, seen, Starting(job), moments);
      SoloStep(ttlMinutes, seen, Starting(job), moments, 0);
      SoloStep(ttlMinutes, seen, Starting(job), moments, 1);
      assert moments[..5] == moments;
      var token := Token(value, device, moments[0].clock, moments[1].clock);
      outcome := StoreToken(user, token, moments, 2, seen, Starting(job), job, Enrolment);
    }
  }

  lemma SoloStarts(ttlMinutes: int, seen: Vault, process: Process, moments: seq<Moment>)
    ensures Solo(ttlMinutes, seen, process, moments[..0]) == (seen, process)
  {
  }

  // ---------------------------------------------------------------- what the methods come to

  /** Last used no longer ago than the limit, in minutes. */
  predicate Within(ttlMinutes: int, token: Token, now: int) {
    now - token.lastUsedAt <= ttlMinutes * 60_000_000_000
  }

  /** Where a retrieval stands after so many steps, with the tokens as last seen. */
  predicate Reaches(ttlMinutes: int, seen: Vault, job: Job, moments: seq<Moment>, k: nat, tokens: Vault, process: Process)
    requires k <= |moments|
  {
    Solo(ttlMinutes, seen, Starting(job), moments[..k]) == (tokens, process)
  }

  /** The first check of `RetrieveToken`. A token within its limit, or with no limit set, is returned and nothing changes;
      a missing token or a failing store is a refusal. */
  lemma FirstCheckDecides(ttlMinutes: int, seen: Vault, user: string, presented: string, moments: seq<Moment>)
    requires |moments| >= 4
    ensures var job, tokens := Use(user, presented), moments[0].vault;
            && (moments[1].fails || user !in tokens ==>
                  Reaches(ttlMinutes, seen, job, moments, 3, tokens, Finished(job, Refused)))
            && (!moments[1].fails && user in tokens
                && (ttlMinutes <= 0 || Within(ttlMinutes, tokens[user], moments[3].clock)) ==>
                  Reaches(ttlMinutes, seen, job, moments, 4, tokens, Matching(job, tokens[user], moments[3].clock)))
            && (!moments[1].fails && user in tokens
                && ttlMinutes > 0 && !Within(ttlMinutes, tokens[user], moments[3].clock) ==>
                  Reaches(ttlMinutes, seen, job, moments, 4, tokens, AwaitingRecheck(job)))
  {
    hide Solo, Alone;
    var job := Use(user, presented);
    SoloStarts(ttlMinutes, seen, Starting(job), moments);
    SoloStep(ttlMinutes, seen, Starting(job), moments, 0);
    SoloStep(ttlMinutes, seen, Starting(job), moments, 1);
    SoloStep(ttlMinutes, seen, Starting(job), moments, 2);
    ReadingSteps(ttlMinutes, seen, job, moments[0], moments[1], moments[2]);
    SoloStep(ttlMinutes, seen, Starting(job), moments, 3);
    var tokens := moments[0].vault;
    if user in tokens {
      CheckingStep(ttlMinutes, tokens, job, tokens[user], moments[3]);
    }
  }

  /** The second check, under the write lock, on the token found there: within its limit it is returned, beyond it is
      removed and refused. */
  lemma SecondCheckDecides(ttlMinutes: int, seen: Vault, user: string, presented: string, moments: seq<Moment>)
    requires |moments| >= 9 && ttlMinutes > 0
    requires var job := Use(user, presented);
             Reaches(ttlMinutes, seen, job, moments, 4, moments[0].vault, AwaitingRecheck(job))
    ensures var job, tokens := Use(user, presented), moments[4].vault;
            && (moments[5].fails || user !in tokens ==>
                  Reaches(ttlMinutes, seen, job, moments, 7, tokens, Finished(job, Refused)))
            && (!moments[5].fails && user in tokens && Within(ttlMinutes, tokens[user], moments[6].clock) ==>
                  Reaches(ttlMinutes, seen, job, moments, 8, tokens, Matching(job, tokens[user], moments[6].clock)))
            && (!moments[5].fails && user in tokens && !Within(ttlMinutes, tokens[user], moments[6].clock) ==>
                  Reaches(ttlMinutes, seen, job, moments, 9, if moments[7].fails then tokens else tokens - {user},
                          Finished(job, Refused)))
  {
    hide Solo, Alone;
    var job, first, tokens := Use(user, presented), Starting(Use(user, presented)), moments[4].vault;
    SoloStep(ttlMinutes, seen, first, moments, 4);
    LockingSteps(ttlMinutes, moments[0].vault, job, moments[4]);
    SoloStep(ttlMinutes, seen, first, moments, 5);
    LockingSteps(ttlMinutes, tokens, job, moments[5]);
    SoloStep(ttlMinutes, seen, first, moments, 6);
    LeavingStep(ttlMinutes, tokens, Finished(job, Refused), moments[6]);
    if user in tokens {
      var at := moments[6].clock;
      RecheckingSteps(ttlMinutes, tokens, job, tokens[user], moments[6]);
      SoloStep(ttlMinutes, seen, first, moments, 7);
      LeavingStep(ttlMinutes, tokens, Matching(job, tokens[user], at), moments[7]);
      DeletingStep(ttlMinutes, tokens, job, tokens[user], at, moments[7]);
      SoloStep(ttlMinutes, seen, first, moments, 8);
      LeavingStep(ttlMinutes, if moments[7].fails then tokens else tokens - {user}, Finished(job, Refused), moments[8]);
    }
  }

  /** From a retrieved token on: another value is refused, the presented one is stored again with the date of its use. */
  lemma MatchingUses(ttlMinutes: int, seen: Vault, user: string, presented: string, token: Token, at: int, tokens: Vault,
                     moments: seq<Moment>, k: nat)
    requires k + 5 <= |moments| && Reaches(ttlMinutes, seen, Use(user, presented), moments, k, tokens,
                                           Matching(Use(user, presented), token, at))
    ensures var job := Use(user, presented);
            && (token.value != presented ==>
                  Reaches(ttlMinutes, seen, job, moments, k + 1, tokens, Finished(job, Refused)))
            && (token.value == presented ==>
                  var met, used := moments[k + 2].vault, token.(lastUsedAt := moments[k + 1].clock);
                  if moments[k + 3].fails then
                    Reaches(ttlMinutes, seen, job, moments, k + 5, met, Finished(job, NotStored))
                  else
                    Reaches(ttlMinutes, seen, job, moments, k + 5, met[user := used], Finished(job, Succeeded)))
  {
    hide Solo, Alone;
    var job := Use(user, presented);
    SoloStep(ttlMinutes, seen, Starting(job), moments, k);
    MatchingSteps(ttlMinutes, tokens, job, token, at, moments[k], moments[k + 1]);
    if token.value == presented {
      SoloStep(ttlMinutes, seen, Starting(job), moments, k + 1);
      var used := token.(lastUsedAt := moments[k + 1].clock);
      StoringSteps(ttlMinutes, seen, Starting(job), moments, k + 2, tokens, job, used, Renewal(token, at));
    }
  }

  lemma MatchingSteps(ttlMinutes: int, v: Vault, job: Job, token: Token, at: int, m0: Moment, m1: Moment)
    requires job.Use?
    ensures Alone(ttlMinutes, v, Matching(job, token, at), m0)
            == (v, if token.value == job.presented then Stamping(job, token, at) else Finished(job, Refused))
    ensures Alone(ttlMinutes, v, Stamping(job, token, at), m1)
            == (v, AwaitingStore(job, token.(lastUsedAt := m1.clock), Renewal(token, at)))
  {
  }

  lemma StoreSteps(ttlMinutes: int, v: Vault, job: Job, token: Token, source: Source, m0: Moment, m1: Moment, m2: Moment)
    ensures var w := m0.vault;
            var w', next := if m1.fails then w else w[job.user := token],
                            Finished(job, if m1.fails then NotStored else Succeeded);
            && Alone(ttlMinutes, v, AwaitingStore(job, token, source), m0) == (w, Storing(job, token, source))
            && Alone(ttlMinutes, w, Storing(job, token, source), m1) == (w', Leaving(next))
            && Alone(ttlMinutes, w', Leaving(next), m2) == (w', next)
  {
  }

  lemma StoringSteps(ttlMinutes: int, seen: Vault, first: Process, moments: seq<Moment>, k: nat, tokens: Vault, job: Job,
                     token: Token, source: Source)
    requires k + 3 <= |moments|
    requires Solo(ttlMinutes, seen, first, moments[..k]) == (tokens, AwaitingStore(job, token, source))
    ensures Solo(ttlMinutes, seen, first, moments[..k + 3]) ==
            if moments[k + 1].fails then (moments[k].vault, Finished(job, NotStored))
            else (moments[k].vault[job.user := token], Finished(job, Succeeded))
  {
    hide Solo, Alone;
    SoloStep(ttlMinutes, seen, first, moments, k);
    SoloStep(ttlMinutes, seen, first, moments, k + 1);
    SoloStep(ttlMinutes, seen, first, moments, k + 2);
    StoreSteps(ttlMinutes, tokens, job, token, source, moments[k], moments[k + 1], moments[k + 2]);
  }

  /** An enrolment stores the value with the two dates it read; a revocation removes the user's token and no other. */
  lemma EnrolmentStores(ttlMinutes: int, seen: Vault, user: string, value: string, device: string, moments: seq<Moment>)
    requires |moments| == 5
    ensures var job, met := Enroll(user, value, device), moments[2].vault;
            if moments[3].fails then Reaches(ttlMinutes, seen, job, moments, 5, met, Finished(job, NotStored))
            else Reaches(ttlMinutes, seen, job, moments, 5,
                         met[user := Token(value, device, moments[0].clock, moments[1].clock)], Finished(job, Succeeded))
  {
    hide Solo;
    var job := Enroll(user, value, device);
    SoloStarts(ttlMinutes, seen, Starting(job), moments);
    SoloStep(ttlMinutes, seen, Starting(job), moments, 0);
    SoloStep(ttlMinutes, seen, Starting(job), moments, 1);
    StoringSteps(ttlMinutes, seen, Starting(job), moments, 2, seen, job,
                 Token(value, device, moments[0].clock, moments[1].clock), Enrolment);
  }

  lemma RevocationRemoves(ttlMinutes: int, seen: Vault, user: string, moments: seq<Moment>)
    requires |moments| == 3
    ensures var job, met := Revoke(user), moments[0].vault;
            if moments[1].fails then Reaches(ttlMinutes, seen, job, moments, 3, met, Finished(job, NotStored))
            else Reaches(ttlMinutes, seen, job, moments, 3, met - {user}, Finished(job, Succeeded))
  {
    hide Solo, Alone;
    var first := Starting(Revoke(user));
    SoloStarts(ttlMinutes, seen, first, moments);
    SoloStep(ttlMinutes, seen, first, moments, 0);
    SoloStep(ttlMinutes, seen, first, moments, 1);
    SoloStep(ttlMinutes, seen, first, moments, 2);
    RevokingSteps(ttlMinutes, seen, user, moments[0], moments[1], moments[2]);
  }
}
