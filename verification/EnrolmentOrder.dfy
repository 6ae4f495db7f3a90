/** Whether the latest enrolment wins. Retrieving a token and storing it again is not atomic, so a use that is under way
    may restore the token an enrolment has just replaced; here is exactly when it may. */
module EnrolmentOrder {
  import opened TokenVault

  /** The user's token, if there is one, has this value. */
  predicate HoldsOnly(vault: Vault, user: string, value: string) {
    user in vault ==> vault[user].value == value
  }

  /** From here on nobody sets out to enrol another value for the user. */
  predicate NoOtherEnrolment(events: seq<Event>, user: string, value: string) {
    forall k :: 0 <= k < |events| && events[k].Arrive? && events[k].job.Enroll? && events[k].job.user == user ==>
      events[k].job.value == value
  }

  /** The process carries another value for the user past every check: an enrolment still to store, or a use of the
      token it presents that has passed the validity check, or would pass it at `clock`. */
  predicate Revives(ttlMinutes: int, clock: int, process: Process, user: string, value: string) {
    match process
    case Starting(job) => job.Enroll? && job.user == user && job.value != value
    case Dating(job, _) => job.Enroll? && job.user == user && job.value != value
    case ReadLeaving(next) => Unlocked(next) && Revives(ttlMinutes, clock, next, user, value)
    case Leaving(next) => Unlocked(next) && Revives(ttlMinutes, clock, next, user, value)
    case Checking(job, token) =>
      && job.Use? && job.user == user && token.value == job.presented != value
      && (ttlMinutes > 0 ==> Fresh(ttlMinutes, token, clock))
    case Matching(job, token, _) => job.Use? && job.user == user && token.value == job.presented != value
    case Stamping(job, token, _) => job.user == user && token.value != value
    case AwaitingStore(job, token, _) => job.user == user && token.value != value
    case Storing(job, token, _) => job.user == user && token.value != value
    case _ => false
  }

  predicate NoneRevives(ttlMinutes: int, s: State, user: string, value: string) {
    forall p :: p in s.processes ==> !Revives(ttlMinutes, s.clock, s.processes[p], user, value)
  }

  // ---------------------------------------------------------------- the enrolled value stays

  lemma MoveKeepsValue(ttlMinutes: int, s: State, p: ProcessId, fails: bool, user: string, value: string)
    requires p in s.processes && ProcessHolds(ttlMinutes, s, s.processes[p])
    requires HoldsOnly(s.vault, user, value) && !Revives(ttlMinutes, s.clock, s.processes[p], user, value)
    ensures var s' := Move(ttlMinutes, s, p, s.processes[p], fails);
            && HoldsOnly(s'.vault, user, value)
            && p in s'.processes && !Revives(ttlMinutes, s.clock, s'.processes[p], user, value)
  {
    hide Move, ProcessHolds, Revives;
    if Inside(s.processes[p]) {
      InsideMoveKeepsValue(ttlMinutes, s, p, fails, user, value);
    } else {
      OutsideMoveKeepsValue(ttlMinutes, s, p, fails, user, value);
    }
  }

  lemma InsideMoveKeepsValue(ttlMinutes: int, s: State, p: ProcessId, fails: bool, user: string, value: string)
    requires p in s.processes && ProcessHolds(ttlMinutes, s, s.processes[p]) && Inside(s.processes[p])
    requires HoldsOnly(s.vault, user, value) && !Revives(ttlMinutes, s.clock, s.processes[p], user, value)
    ensures var s' := Move(ttlMinutes, s, p, s.processes[p], fails);
            && HoldsOnly(s'.vault, user, value)
            && p in s'.processes && !Revives(ttlMinutes, s.clock, s'.processes[p], user, value)
  {
    hide Fresh, WasStored, WasAccepted, Storable;
    var after := Move(ttlMinutes, s, p, s.processes[p], fails).processes[p];
    if after.ReadLeaving? || after.Leaving? {
      LeavingRevives(ttlMinutes, s.clock, after.next, user, value);
    }
  }

  lemma OutsideMoveKeepsValue(ttlMinutes: int, s: State, p: ProcessId, fails: bool, user: string, value: string)
    requires p in s.processes && !Inside(s.processes[p])
    requires HoldsOnly(s.vault, user, value) && !Revives(ttlMinutes, s.clock, s.processes[p], user, value)
    ensures var s' := Move(ttlMinutes, s, p, s.processes[p], fails);
            && HoldsOnly(s'.vault, user, value)
            && p in s'.processes && !Revives(ttlMinutes, s.clock, s'.processes[p], user, value)
  {
    hide Fresh;
  }

  lemma LeavingRevives(ttlMinutes: int, clock: int, next: Process, user: string, value: string)
    ensures Revives(ttlMinutes, clock, ReadLeaving(next), user, value)
            <==> Unlocked(next) && Revives(ttlMinutes, clock, next, user, value)
    ensures Revives(ttlMinutes, clock, Leaving(next), user, value)
            <==> Unlocked(next) && Revives(ttlMinutes, clock, next, user, value)
  {
  }

  lemma EventKeepsValue(ttlMinutes: int, s: State, e: Event, user: string, value: string)
    requires Invariant(ttlMinutes, s) && HoldsOnly(s.vault, user, value) && NoneRevives(ttlMinutes, s, user, value)
    requires NoOtherEnrolment([e], user, value)
    ensures var s' := Next(ttlMinutes, s, e);
            HoldsOnly(s'.vault, user, value) && NoneRevives(ttlMinutes, s', user, value)
  {
    hide Move, Revives, ProcessHolds, WasStored, RecordHolds, LockHolds;
    match e
    case Tick(time) =>
      forall p | p in s.processes && time >= s.clock
        ensures !Revives(ttlMinutes, time, s.processes[p], user, value)
      {
        TimeRevivesNone(ttlMinutes, s.clock, time, s.processes[p], user, value);
      }
    case Arrive(_, job) =>
      assert [e][0] == e;
      NewcomerRevives(ttlMinutes, s.clock, job, user, value);
    case Advance(p, fails) =>
      if p in s.processes {
        MoveFrame(ttlMinutes, s, p, fails);
        MoveKeepsValue(ttlMinutes, s, p, fails, user, value);
      }
  }

  lemma TimeRevivesNone(ttlMinutes: int, clock: int, later: int, process: Process, user: string, value: string)
    requires clock <= later && !Revives(ttlMinutes, clock, process, user, value)
    ensures !Revives(ttlMinutes, later, process, user, value)
  {
  }

  lemma NewcomerRevives(ttlMinutes: int, clock: int, job: Job, user: string, value: string)
    ensures Revives(ttlMinutes, clock, Starting(job), user, value) <==>
              job.Enroll? && job.user == user && job.value != value
  {
  }

  lemma {:induction false} ValueStays(ttlMinutes: int, s: State, events: seq<Event>, user: string, value: string)
    requires Invariant(ttlMinutes, s) && HoldsOnly(s.vault, user, value) && NoneRevives(ttlMinutes, s, user, value)
    requires NoOtherEnrolment(events, user, value)
    ensures var s' := RunAll(ttlMinutes, s, events);
            && Invariant(ttlMinutes, s')
            && HoldsOnly(s'.vault, user, value) && NoneRevives(ttlMinutes, s', user, value)
    decreases |events|
  {
    hide Next, Invariant, NoneRevives, HoldsOnly;
    if events == [] {
    } else {
      var past, e := events[..|events| - 1], events[|events| - 1];
      ValueStays(ttlMinutes, s, past, user, value);
      EventKeeps(ttlMinutes, RunAll(ttlMinutes, s, past), e);
      EventKeepsValue(ttlMinutes, RunAll(ttlMinutes, s, past), e, user, value);
    }
  }

  // ---------------------------------------------------------------- the replaced value comes back

  lemma {:induction false} RunAppend(ttlMinutes: int, s: State, before: seq<Event>, after: seq<Event>)
    ensures RunAll(ttlMinutes, s, before + after) == RunAll(ttlMinutes, RunAll(ttlMinutes, s, before), after)
    decreases |after|
  {
    hide Next;
    if after == [] {
      assert before + after == before;
    } else {
      var events := before + after;
      assert events[..|events| - 1] == before + after[..|after| - 1];
      RunAppend(ttlMinutes, s, before, after[..|after| - 1]);
    }
  }

  lemma OneEvent(ttlMinutes: int, s: State, e: Event)
    ensures RunAll(ttlMinutes, s, [e]) == Next(ttlMinutes, s, e)
  {
    assert [e][..0] == [];
  }

  predicate OnlyAdvances(events: seq<Event>) {
    forall k :: 0 <= k < |events| ==> events[k].Advance?
  }

  /** How many more steps a process takes before it gives the lock back. */
  function StepsInside(process: Process): nat {
    match process
    case Reading(_) => 2
    case ReadLeaving(_) => 1
    case Rereading(_) => 2
    case Rechecking(_, _) => 3
    case Deleting(_, _, _) => 2
    case Storing(_, _, _) => 2
    case Removing(_) => 2
    case Leaving(_) => 1
    case _ => 0
  }

  /** A process inside can always go on; with the token store failing it changes nothing on its way out. */
  lemma StepOut(ttlMinutes: int, s: State, q: ProcessId)
    requires LockHolds(s) && q in s.processes && Inside(s.processes[q])
    requires ProcessHolds(ttlMinutes, s, s.processes[q])
    ensures var s' := Move(ttlMinutes, s, q, s.processes[q], true);
            && q in s'.processes && s'.processes == s.processes[q := s'.processes[q]]
            && s'.vault == s.vault && s'.clock == s.clock
            && StepsInside(s'.processes[q]) < StepsInside(s.processes[q])
            && s'.lock == (if StepsInside(s.processes[q]) > 1 then s.lock
                           else if s.lock.Writer? || s.lock.ps == {q} then Free
                           else Readers(s.lock.ps - {q}))
            && (StepsInside(s.processes[q]) > 1 ==> Inside(s'.processes[q]))
  {
    hide Fresh, WasStored, WasAccepted, Storable;
  }

  function Crowd(lock: Lock): nat {
    if lock.Readers? then |lock.ps| else 0
  }

  /** Whoever is inside can be let out without any other effect. */
  lemma {:induction false} EmptyLock(ttlMinutes: int, s: State, p: ProcessId, q: ProcessId) returns (events: seq<Event>)
    requires Invariant(ttlMinutes, s) && p in s.processes && !Inside(s.processes[p])
    requires !s.lock.Free? ==> q in s.processes && Inside(s.processes[q])
    ensures OnlyAdvances(events)
    ensures var s' := RunAll(ttlMinutes, s, events);
            && Invariant(ttlMinutes, s') && s'.lock.Free? && s'.vault == s.vault && s'.clock == s.clock
            && p in s'.processes && s'.processes[p] == s.processes[p]
    decreases Crowd(s.lock), if s.lock.Free? || q !in s.processes then 0 else 1 + StepsInside(s.processes[q])
  {
    hide Move, ProcessHolds, RecordHolds, WasStored, RunAll, Inside, StepsInside;
    if s.lock.Free? {
      events := [];
      Nothing(ttlMinutes, s);
    } else {
      var e := Advance(q, true);
      var s1 := Next(ttlMinutes, s, e);
      EventKeeps(ttlMinutes, s, e);
      StepOut(ttlMinutes, s, q);
      SomeoneInside(ttlMinutes, s, q);
      var r := q;
      if s1.lock != s.lock && s1.lock.Readers? {
        r :| r in s1.lock.ps;
        ReadersAreInside(s1, r);
      }
      var rest := EmptyLock(ttlMinutes, s1, p, r);
      events := [e] + rest;
      RunAppend(ttlMinutes, s, [e], rest);
      OneEvent(ttlMinutes, s, e);
    }
  }

  lemma Nothing(ttlMinutes: int, s: State)
    ensures RunAll(ttlMinutes, s, []) == s
  {
  }

  /** The lock names the process inside. */
  lemma SomeoneInside(ttlMinutes: int, s: State, q: ProcessId)
    requires LockHolds(s) && q in s.processes && Inside(s.processes[q])
    ensures s.lock.Writer? || (s.lock.Readers? && q in s.lock.ps)
    ensures StepsInside(s.processes[q]) > 0
  {
  }

  lemma ReadersAreInside(s: State, r: ProcessId)
    requires LockHolds(s) && s.lock.Readers? && r in s.lock.ps
    ensures r in s.processes && Inside(s.processes[r])
  {
  }

  /** How far a process that revives another value is from storing it. */
  function StepsToStore(process: Process): nat {
    match process
    case Starting(_) => 8
    case ReadLeaving(_) => 7
    case Checking(_, _) => 6
    case Leaving(_) => 7
    case Dating(_, _) => 5
    case Matching(_, _, _) => 5
    case Stamping(_, _, _) => 4
    case AwaitingStore(_, _, _) => 3
    case Storing(_, _, _) => 2
    case _ => 0
  }

  /** Its next step takes it there, as soon as the lock is free where it needs it. */
  lemma NearerToStore(ttlMinutes: int, s: State, p: ProcessId, user: string, value: string)
    requires LockHolds(s) && p in s.processes && Revives(ttlMinutes, s.clock, s.processes[p], user, value)
    requires s.processes[p].AwaitingStore? ==> s.lock.Free?
    ensures var s' := Move(ttlMinutes, s, p, s.processes[p], false);
            && p in s'.processes
            && if s.processes[p].Storing? then user in s'.vault && s'.vault[user].value != value
               else && Revives(ttlMinutes, s'.clock, s'.processes[p], user, value)
                    && StepsToStore(s'.processes[p]) < StepsToStore(s.processes[p])
  {
    hide Fresh;
  }

  /** So another value comes back. */
  lemma {:induction false} ValueReturns(ttlMinutes: int, s: State, p: ProcessId, user: string, value: string)
    returns (events: seq<Event>)
    requires Invariant(ttlMinutes, s) && p in s.processes && Revives(ttlMinutes, s.clock, s.processes[p], user, value)
    ensures OnlyAdvances(events) && !HoldsOnly(RunAll(ttlMinutes, s, events).vault, user, value)
    decreases StepsToStore(s.processes[p])
  {
    hide Move, ProcessHolds, RecordHolds, WasStored, RunAll, Revives, StepsToStore, Inside;
    var clear: seq<Event> := [];
    Nothing(ttlMinutes, s);
    if s.processes[p].AwaitingStore? {
      WaitingIsOutside(s.processes[p]);
      var q := Insider(s, p);
      clear := EmptyLock(ttlMinutes, s, p, q);
    }
    var s1 := RunAll(ttlMinutes, s, clear);
    var e := Advance(p, false);
    NearerToStore(ttlMinutes, s1, p, user, value);
    EventKeeps(ttlMinutes, s1, e);
    OneEvent(ttlMinutes, s1, e);
    RunAppend(ttlMinutes, s, clear, [e]);
    events := clear + [e];
    if !s.processes[p].Storing? {
      var rest := ValueReturns(ttlMinutes, Next(ttlMinutes, s1, e), p, user, value);
      RunAppend(ttlMinutes, s, events, rest);
      events := events + rest;
    }
  }

  lemma WaitingIsOutside(process: Process)
    requires process.AwaitingStore?
    ensures !Inside(process)
  {
  }

  lemma Insider(s: State, p: ProcessId) returns (q: ProcessId)
    requires LockHolds(s)
    ensures !s.lock.Free? ==> q in s.processes && Inside(s.processes[q])
  {
    q := match s.lock
      case Free => p
      case Writer(w) => w
      case Readers(ps) => var r :| r in ps; r;
  }

  // ---------------------------------------------------------------- exactly when the latest enrolment wins

  /** In any reachable state, the user's token keeps the value it has now, or vanishes, whatever happens short of another
      enrolment, exactly if no process under way carries another value past every check. */
  lemma EnrolmentPrevails(ttlMinutes: int, start: int, before: seq<Event>, user: string, value: string)
    ensures var s := RunAll(ttlMinutes, Initial(start), before);
            (forall after :: NoOtherEnrolment(after, user, value) ==>
               HoldsOnly(RunAll(ttlMinutes, s, after).vault, user, value))
            <==> HoldsOnly(s.vault, user, value) && NoneRevives(ttlMinutes, s, user, value)
  {
    hide RunAll, Invariant, HoldsOnly, Revives;
    var s := RunAll(ttlMinutes, Initial(start), before);
    InvariantHolds(ttlMinutes, start, before);
    Nothing(ttlMinutes, s);
    if HoldsOnly(s.vault, user, value) {
      if p: ProcessId :| p in s.processes && Revives(ttlMinutes, s.clock, s.processes[p], user, value) {
        var after := ValueReturns(ttlMinutes, s, p, user, value);
        assert NoOtherEnrolment(after, user, value);
      } else {
        forall after | NoOtherEnrolment(after, user, value)
          ensures HoldsOnly(RunAll(ttlMinutes, s, after).vault, user, value)
        {
          ValueStays(ttlMinutes, s, after, user, value);
        }
      }
    } else {
      assert NoOtherEnrolment([], user, value);
    }
  }

  // ---------------------------------------------------------------- a run in which it does not

  lemma Extend(ttlMinutes: int, s: State, events: seq<Event>, e: Event) returns (longer: seq<Event>)
    ensures longer == events + [e]
    ensures RunAll(ttlMinutes, s, longer) == Next(ttlMinutes, RunAll(ttlMinutes, s, events), e)
  {
    longer := events + [e];
    assert longer[..|events|] == events;
  }

  /** An undisturbed enrolment. */
  lemma Enrols(ttlMinutes: int, s: State, p: ProcessId, user: string, value: string, device: string)
    returns (events: seq<Event>)
    requires s.lock.Free? && p !in s.processes
    ensures var s' := RunAll(ttlMinutes, s, events);
            var job := Enroll(user, value, device);
            && s'.vault == s.vault[user := Token(value, device, s.clock, s.clock)] && s'.lock.Free? && s'.clock == s.clock
            && s'.processes == s.processes[p := Finished(job, Succeeded)]
  {
    hide RunAll;
    Nothing(ttlMinutes, s);
    events := Extend(ttlMinutes, s, [], Arrive(p, Enroll(user, value, device)));
    events := Extend(ttlMinutes, s, events, Advance(p, false));
    events := Extend(ttlMinutes, s, events, Advance(p, false));
    events := Extend(ttlMinutes, s, events, Advance(p, false));
    events := Extend(ttlMinutes, s, events, Advance(p, false));
    events := Extend(ttlMinutes, s, events, Advance(p, false));
  }

  /** A use that has read the token and given the lock back. */
  lemma ReadsToken(ttlMinutes: int, s: State, p: ProcessId, user: string, presented: string) returns (events: seq<Event>)
    requires s.lock.Free? && p !in s.processes && user in s.vault
    ensures var s' := RunAll(ttlMinutes, s, events);
            && s'.vault == s.vault && s'.lock.Free? && s'.clock == s.clock
            && s'.processes == s.processes[p := Checking(Use(user, presented), s.vault[user])]
  {
    hide RunAll;
    Nothing(ttlMinutes, s);
    events := Extend(ttlMinutes, s, [], Arrive(p, Use(user, presented)));
    events := Extend(ttlMinutes, s, events, Advance(p, false));
    events := Extend(ttlMinutes, s, events, Advance(p, false));
    events := Extend(ttlMinutes, s, events, Advance(p, false));
  }

  /** Its remaining steps, if the token is the one presented and fresh. */
  lemma StoresAgain(ttlMinutes: int, s: State, p: ProcessId, user: string, token: Token) returns (events: seq<Event>)
    requires s.lock.Free? && p in s.processes && s.processes[p] == Checking(Use(user, token.value), token)
    requires ttlMinutes > 0 ==> Fresh(ttlMinutes, token, s.clock)
    ensures OnlyAdvances(events)
    ensures var s' := RunAll(ttlMinutes, s, events); user in s'.vault && s'.vault[user] == token.(lastUsedAt := s.clock)
  {
    hide RunAll, Fresh;
    Nothing(ttlMinutes, s);
    events := Extend(ttlMinutes, s, [], Advance(p, false));
    events := Extend(ttlMinutes, s, events, Advance(p, false));
    events := Extend(ttlMinutes, s, events, Advance(p, false));
    events := Extend(ttlMinutes, s, events, Advance(p, false));
    events := Extend(ttlMinutes, s, events, Advance(p, false));
  }

  /** Whatever the two values: a device is enrolled, a use of it begins, another device is enrolled in its place with
      success, and the use then stores the first device's token again. */
  lemma LatestEnrolmentMayLose(ttlMinutes: int, start: int, user: string, first: string, second: string, device: string)
    returns (before: seq<Event>, after: seq<Event>)
    requires first != second
    ensures var s := RunAll(ttlMinutes, Initial(start), before);
            && 2 in s.processes && s.processes[2] == Finished(Enroll(user, second, device), Succeeded)
            && user in s.vault && s.vault[user].value == second
    ensures var s := RunAll(ttlMinutes, RunAll(ttlMinutes, Initial(start), before), after);
            OnlyAdvances(after) && user in s.vault && s.vault[user].value == first
  {
    hide RunAll;
    var s0 := Initial(start);
    var enrolled := Enrols(ttlMinutes, s0, 0, user, first, device);
    var s1 := RunAll(ttlMinutes, s0, enrolled);
    var using := ReadsToken(ttlMinutes, s1, 1, user, first);
    var s2 := RunAll(ttlMinutes, s1, using);
    var replaced := Enrols(ttlMinutes, s2, 2, user, second, device);
    var s3 := RunAll(ttlMinutes, s2, replaced);
    after := StoresAgain(ttlMinutes, s3, 1, user, Token(first, device, start, start));
    RunAppend(ttlMinutes, s0, enrolled, using);
    RunAppend(ttlMinutes, s0, enrolled + using, replaced);
    before := enrolled + using + replaced;
  }
}
