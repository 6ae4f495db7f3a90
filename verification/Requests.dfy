/** Elevation requests, and what one statement of each request store does to the table of requests.
    The three stores share an interface but not their treatment of expiry and of approval metadata. */
module Requests {
  import opened Text
  import opened Timestamp
  import opened Wrappers

  datatype Status = Pending | Approved | Denied | Expired | Completed | Failed | Other(name: string)

  /** `ElevationRequest`; an empty `approvedBy` stands for the absent value, as in Go. */
  datatype Request = Request(
    id: string, command: string, reason: string, requester: string, targetSystem: string,
    status: Status, createdAt: Instant, expiresAt: Instant,
    approvedBy: string, approvedAt: Option<Instant>,
    notifyChatId: int, ipAddress: string, userAgent: string,
    output: Option<string>, exitCode: Option<int>)

  /** A request of which the caller set only these four fields; the others hold Go's zero values. */
  function Bare(id: string, status: Status, output: string, exitCode: int): Request {
    Request(id, "", "", "", "", status, ZERO_TIME, ZERO_TIME, "", None, 0, "", "", Some(output), Some(exitCode))
  }

  type Table = map<string, Request>

  datatype Backend = Sqlite | Postgres | Memory

  /** How a database call ends. A call that fails after the statement ran has changed the table, but its caller
      sees only the error. */
  datatype Outcome = Works | FailsBefore | FailsAfter

  function Committed(db: Outcome, before: Table, after: Table): Table {
    if db.FailsBefore? then before else after
  }

  function Answer<T>(db: Outcome, value: T): Result<T> {
    if db.Works? then Ok(value) else Err("store error")
  }

  /** Whether a pending request may still be decided when the clock reads `now`. */
  predicate Live(backend: Backend, r: Request, now: Instant) {
    match backend
    case Sqlite => Less(Format(now), Format(r.expiresAt))
    case Postgres => Before(now, r.expiresAt)
    case Memory => !Before(r.expiresAt, now)
  }

  /** The states whose SQL transition records the actor and requires the request to be live. */
  predicate IsDecision(target: Status) {
    target.Approved? || target.Denied? || target.Failed?
  }

  /** Whether `UpdateStateIf` changes this request: only the in-memory store requires every target to be live. */
  predicate Swappable(backend: Backend, r: Request, expected: Status, target: Status, now: Instant) {
    r.status == expected && (backend.Memory? || IsDecision(target) ==> Live(backend, r, now))
  }

  /** The request after `UpdateStateIf`: the in-memory store keeps metadata of approvals only. */
  function Swapped(backend: Backend, r: Request, target: Status, actor: string, now: Instant): Request {
    if (if backend.Memory? then target.Approved? && actor != "" else IsDecision(target)) then
      r.(status := target, approvedBy := actor, approvedAt := Some(now))
    else if backend.Memory? then
      r.(status := target, approvedBy := "", approvedAt := None)
    else
      r.(status := target)
  }

  /** `UpdateStateIf`: the new table, and whether a row changed. */
  function Swap(backend: Backend, t: Table, id: string, expected: Status, target: Status, actor: string, now: Instant)
    : (Table, bool)
  {
    if id in t && Swappable(backend, t[id], expected, target, now)
    then (t[id := Swapped(backend, t[id], target, actor, now)], true)
    else (t, false)
  }

  /** `Update`: SQL rewrites five columns of an existing row, the in-memory store replaces the record. */
  function Overwrite(backend: Backend, t: Table, r: Request): Table {
    if backend.Memory? then t[r.id := r]
    else if r.id !in t then t
    else t[r.id := t[r.id].(status := r.status, approvedBy := r.approvedBy, approvedAt := r.approvedAt,
                            output := r.output, exitCode := r.exitCode)]
  }

  /** `Create`: SQL refuses a used id and leaves four columns NULL, the in-memory store overwrites. */
  function Insert(backend: Backend, t: Table, r: Request): (Table, bool) {
    if backend.Memory? then (t[r.id := r], true)
    else if r.id in t then (t, false)
    else (t[r.id := r.(approvedBy := "", approvedAt := None, output := None, exitCode := None)], true)
  }

  /** `Get`: the SQL stores do not read the result columns back. */
  function Fetch(backend: Backend, t: Table, id: string): Option<Request> {
    if id !in t then None
    else if backend.Memory? then Some(t[id])
    else Some(t[id].(output := None, exitCode := None))
  }

  predicate Overdue(backend: Backend, r: Request, now: Instant) {
    r.status.Pending? && !Live(backend, r, now)
  }

  function OverdueIds(backend: Backend, t: Table, now: Instant): set<string> {
    set id | id in t && Overdue(backend, t[id], now)
  }

  function Swept(backend: Backend, r: Request, now: Instant): Request {
    if Overdue(backend, r, now) then r.(status := Expired) else r
  }

  /** `ExpireOldRequests`. */
  function Sweep(backend: Backend, t: Table, now: Instant): Table {
    map id | id in t :: Swept(backend, t[id], now)
  }

  /** What `ListPending` selects; the in-memory store excludes the expiry instant itself. */
  predicate Listed(backend: Backend, r: Request, now: Instant) {
    r.status.Pending? && (if backend.Memory? then Before(now, r.expiresAt) else Live(backend, r, now))
  }

  /** ORDER BY created_at: the SQLite column is text. */
  predicate Older(backend: Backend, a: Request, b: Request) {
    if backend.Sqlite? then Less(Format(a.createdAt), Format(b.createdAt)) else Before(a.createdAt, b.createdAt)
  }

  /** ORDER BY created_at DESC, no request twice. */
  predicate NewestFirst(backend: Backend, s: seq<Request>) {
    forall i, j :: 0 <= i < j < |s| ==> !Older(backend, s[i], s[j]) && s[i].id != s[j].id
  }

  /** What `ListPending` of a SQL store returns: exactly the pending requests whose expiry the reading precedes, each once,
      without its result columns, and the one created last first, texts and times compared as the store compares them. */
  predicate IsPendingList(backend: Backend, t: Table, now: Instant, result: seq<Request>) {
    && (forall i, j :: 0 <= i < j < |result| ==>
          && result[i].id != result[j].id
          && if backend.Sqlite? then !Less(Format(result[i].createdAt), Format(result[j].createdAt))
             else Nanos(result[j].createdAt) <= Nanos(result[i].createdAt))
    && (forall r :: r in result ==>
          r.id in t && r == t[r.id].(output := None, exitCode := None) && IsLivePending(backend, r, now))
    && (forall id :: id in t && IsLivePending(backend, t[id], now) ==> exists r :: r in result && r.id == id)
  }

  lemma PendingListIsLive(backend: Backend, t: Table, now: Instant, result: seq<Request>)
    requires !backend.Memory? && NewestFirst(backend, result)
    requires forall r :: r in result ==> r.id in t && Fetch(backend, t, r.id) == Some(r) && Listed(backend, r, now)
    requires forall id :: id in t && Listed(backend, t[id], now) ==> exists r :: r in result && r.id == id
    ensures IsPendingList(backend, t, now, result)
  {
    hide Format, Nanos, Less;
    forall r | r in result
      ensures r.id in t && r == t[r.id].(output := None, exitCode := None) && IsLivePending(backend, r, now)
    {
    }
  }

  predicate IsLivePending(backend: Backend, r: Request, now: Instant) {
    && r.status == Pending
    && if backend.Sqlite? then Less(Format(now), Format(r.expiresAt)) else Nanos(now) < Nanos(r.expiresAt)
  }

  lemma OlderIsOrder(backend: Backend, a: Request, b: Request, c: Request)
    ensures !Older(backend, a, a)
    ensures !Older(backend, b, a) && Older(backend, b, c) ==> !Older(backend, c, a)
  {
    hide Format, Nanos;
    if backend.Sqlite? {
      LessIsIrreflexive(Format(a.createdAt));
      if !Older(backend, b, a) && Older(backend, b, c) {
        AtMostThenLess(Format(a.createdAt), Format(b.createdAt), Format(c.createdAt));
      }
    }
  }

  /** Puts one more row in its place. */
  method InsertByCreation(backend: Backend, sorted: seq<Request>, r: Request) returns (result: seq<Request>)
    requires NewestFirst(backend, sorted)
    requires forall i :: 0 <= i < |sorted| ==> sorted[i].id != r.id
    ensures NewestFirst(backend, result)
    ensures forall x :: x in result <==> x in sorted || x == r
  {
    hide Older;
    var k := 0;
    while k < |sorted| && !Older(backend, sorted[k], r)
      invariant 0 <= k <= |sorted|
      invariant forall i :: 0 <= i < k ==> !Older(backend, sorted[i], r)
    {
      k := k + 1;
    }
    forall j | k <= j < |sorted|
      ensures !Older(backend, r, sorted[j])
    {
      OlderIsOrder(backend, sorted[j], sorted[k], r);
    }
    result := sorted[..k] + [r] + sorted[k..];
  }

  /** What a store's expiry guard means in time: exactly for the SQL stores, and for all within one second or one
      nanosecond. */
  lemma ExpiryGuards(backend: Backend, r: Request, now: Instant)
    ensures !backend.Memory? ==> (Live(backend, r, now) <==> Precedes(backend.Sqlite?, now, r.expiresAt))
    ensures Live(backend, r, now) ==> Nanos(now) < Nanos(r.expiresAt) + Slack(backend)
    ensures !Live(backend, r, now) ==> Nanos(now) + Slack(backend) > Nanos(r.expiresAt)
  {
    hide Nanos, Format;
    TextOrderIsTimeOrder(now, r.expiresAt);
    TextOrderWithinASecond(now, r.expiresAt);
  }

  /** How far, in nanoseconds, a store's idea of expiry may be from the instant `expiresAt`. */
  function Slack(backend: Backend): nat {
    if backend.Sqlite? then SECOND else 1
  }
}
