/** The SQLite store: rows whose timestamps are RFC3339Nano texts, compared as texts. */
module SqliteStore {
  import opened Text
  import opened Timestamp
  import opened Wrappers
  import opened Requests

  /** A row of `elevation_requests`; NULL is `None`. */
  datatype Row = Row(
    id: string, requester: string, targetSystem: string, command: string, reason: string, status: Status,
    createdAt: string, expiresAt: string, approvedBy: Option<string>, approvedAt: Option<string>,
    ipAddress: string, userAgent: string, notifyChatId: int, output: Option<string>, exitCode: Option<int>)

  function Nullable(s: string): Option<string> {
    if s == "" then None else Some(s)
  }

  function TextOf(t: Option<Instant>): Option<string> {
    if t.Some? then Some(Format(t.value)) else None
  }

  /** The row that stands for a request. */
  function Encode(r: Request): Row {
    Row(r.id, r.requester, r.targetSystem, r.command, r.reason, r.status, Format(r.createdAt), Format(r.expiresAt),
        Nullable(r.approvedBy), TextOf(r.approvedAt), r.ipAddress, r.userAgent, r.notifyChatId, r.output, r.exitCode)
  }

  /** Reads a time column; text that does not parse leaves the zero time. */
  function ScanTime(s: string): Instant {
    if Parse(s).Some? then Parse(s).value else ZERO_TIME
  }

  /** `scanSQLiteRequest`: the thirteen columns every SELECT asks for. */
  function Scan(row: Row): Request {
    Request(row.id, row.command, row.reason, row.requester, row.targetSystem, row.status,
            ScanTime(row.createdAt), ScanTime(row.expiresAt),
            if row.approvedBy.Some? then row.approvedBy.value else "",
            if row.approvedAt.Some? then Parse(row.approvedAt.value) else None,
            row.notifyChatId, row.ipAddress, row.userAgent, None, None)
  }

  /** Reading a row back yields the request that was written, down to the nanosecond, without its results. */
  lemma ScanEncode(r: Request)
    ensures Scan(Encode(r)) == r.(output := None, exitCode := None)
  {
    hide Format, Parse, Less;
    ParseFormat(r.createdAt);
    ParseFormat(r.expiresAt);
    if r.approvedAt.Some? {
      ParseFormat(r.approvedAt.value);
    }
  }

  /** The two UPDATE statements of `UpdateStateIf`, read as changes of the request. */
  lemma EncodeSwapped(r: Request, target: Status, actor: string, clock: Instant)
    ensures Encode(r).id == r.id && Encode(r).status == r.status && Encode(r).expiresAt == Format(r.expiresAt)
    ensures Encode(Swapped(Sqlite, r, target, actor, clock)) ==
            if IsDecision(target) then
              Encode(r).(status := target, approvedBy := Nullable(actor), approvedAt := Some(Format(clock)))
            else
              Encode(r).(status := target)
  {
    hide Format;
  }

  lemma EncodeInserted(r: Request)
    ensures Encode(r.(approvedBy := "", approvedAt := None, output := None, exitCode := None)) ==
            Row(r.id, r.requester, r.targetSystem, r.command, r.reason, r.status, Format(r.createdAt), Format(r.expiresAt),
                None, None, r.ipAddress, r.userAgent, r.notifyChatId, None, None)
  {
    hide Format;
  }

  /** A row and the request it stands for, under the guarded statement. */
  lemma DecisionsAgree(row: Row, r: Request, expected: Status, target: Status, actor: string, clock: Instant)
    requires row == Encode(r) && IsDecision(target)
    ensures row.id == r.id && row.status == r.status
    ensures row.status == expected && Less(Format(clock), row.expiresAt) <==> Swappable(Sqlite, r, expected, target, clock)
    ensures row.(status := target, approvedBy := Nullable(actor), approvedAt := Some(Format(clock)))
            == Encode(Swapped(Sqlite, r, target, actor, clock))
    ensures Swapped(Sqlite, r, target, actor, clock).id == r.id
  {
    hide Format, Less;
    EncodeSwapped(r, target, actor, clock);
  }

  /** And under the plain one. */
  lemma StatusesAgree(row: Row, r: Request, expected: Status, target: Status, actor: string, clock: Instant)
    requires row == Encode(r) && !IsDecision(target)
    ensures row.id == r.id && row.status == r.status
    ensures row.status == expected <==> Swappable(Sqlite, r, expected, target, clock)
    ensures row.(status := target) == Encode(Swapped(Sqlite, r, target, actor, clock))
    ensures Swapped(Sqlite, r, target, actor, clock).id == r.id
  {
    hide Format, Less;
    EncodeSwapped(r, target, actor, clock);
  }

  class Store {
    var rows: map<string, Row>
    ghost var contents: Table  // the requests the rows stand for

    ghost predicate Valid()
      reads this
    {
      && rows.Keys == contents.Keys
      && forall id :: id in rows ==> rows[id] == Encode(contents[id]) && rows[id].id == id
    }

    constructor ()
      ensures Valid() && contents == map[]
    {
      rows, contents := map[], map[];
    }

    method Create(req: Request, db: Outcome) returns (r: Result<()>)
      requires Valid()
      modifies this
      ensures Valid()
      ensures contents == Committed(db, old(contents), Insert(Sqlite, old(contents), req).0)
      ensures r.Ok? <==> db.Works? && Insert(Sqlite, old(contents), req).1
    {
      hide Format, Parse, Less, Encode;
      if db.FailsBefore? || req.id in rows {
        return Err("insert failed");
      }
      EncodeInserted(req);
      rows := rows[req.id := Row(req.id, req.requester, req.targetSystem, req.command, req.reason, req.status,
                                 Format(req.createdAt), Format(req.expiresAt), None, None,
                                 req.ipAddress, req.userAgent, req.notifyChatId, None, None)];
      contents := Insert(Sqlite, contents, req).0;
      return if db.Works? then Ok(()) else Err("insert failed");
    }

    method Get(id: string, db: Outcome) returns (r: Result<Option<Request>>)
      requires Valid()
      ensures r == Answer(db, Fetch(Sqlite, contents, id))
    {
      hide Format, Parse, Less;
      if !db.Works? {
        return Err("store error");
      }
      if id !in rows {
        return Ok(None);
      }
      ScanEncode(contents[id]);
      return Ok(Some(Scan(rows[id])));
    }

    method Update(req: Request, db: Outcome) returns (r: Result<()>)
      requires Valid()
      modifies this
      ensures Valid()
      ensures contents == Committed(db, old(contents), Overwrite(Sqlite, old(contents), req))
      ensures r == Answer(db, ())
    {
      hide Format, Parse, Less;
      if !db.FailsBefore? {
        if req.id in rows {
          rows := rows[req.id := rows[req.id].(status := req.status, approvedBy := Nullable(req.approvedBy),
                                               approvedAt := TextOf(req.approvedAt),
                                               output := req.output, exitCode := req.exitCode)];
        }
        contents := Overwrite(Sqlite, contents, req);
      }
      return Answer(db, ());
    }

    /** One row written under its id. */
    method Write(row: Row, ghost r: Request)
      requires Valid() && row == Encode(r) && row.id == r.id
      modifies this
      ensures Valid() && contents == old(contents)[r.id := r]
    {
      hide Encode;
      rows, contents := rows[row.id := row], contents[r.id := r];
    }

    /** The statement for "approved", "denied" and "failed": guarded by the expiry text, recording the actor. */
    method SetDecision(id: string, expected: Status, target: Status, actor: string, clock: Instant)
      returns (affected: nat)
      requires Valid() && IsDecision(target)
      modifies this
      ensures Valid()
      ensures (contents, affected > 0) == Swap(Sqlite, old(contents), id, expected, target, actor, clock)
    {
      hide Format, Parse, Less, Encode, Swapped, Swappable, IsDecision, Nullable, TextOf;
      var now := Format(clock);
      affected := 0;
      if id in rows {
        DecisionsAgree(rows[id], contents[id], expected, target, actor, clock);
      }
      if id in rows && rows[id].status == expected && Less(now, rows[id].expiresAt) {
        Write(rows[id].(status := target, approvedBy := Nullable(actor), approvedAt := Some(now)),
              Swapped(Sqlite, contents[id], target, actor, clock));
        affected := 1;
      }
    }

    /** The statement for every other target state: status only, whatever the expiry. */
    method SetStatus(id: string, expected: Status, target: Status, ghost actor: string, ghost clock: Instant)
      returns (affected: nat)
      requires Valid() && !IsDecision(target)
      modifies this
      ensures Valid()
      ensures (contents, affected > 0) == Swap(Sqlite, old(contents), id, expected, target, actor, clock)
    {
      hide Format, Parse, Less, Encode, Swapped, Swappable, IsDecision, Nullable, TextOf;
      affected := 0;
      if id in rows {
        StatusesAgree(rows[id], contents[id], expected, target, actor, clock);
      }
      if id in rows && rows[id].status == expected {
        Write(rows[id].(status := target), Swapped(Sqlite, contents[id], target, actor, clock));
        affected := 1;
      }
    }

    method UpdateStateIf(id: string, expected: Status, target: Status, actor: string, clock: Instant, db: Outcome)
      returns (r: Result<bool>)
      requires Valid()
      modifies this
      ensures Valid()
      ensures contents == Committed(db, old(contents), Swap(Sqlite, old(contents), id, expected, target, actor, clock).0)
      ensures r == Answer(db, Swap(Sqlite, old(contents), id, expected, target, actor, clock).1)
    {
      hide Format, Parse, Less, Swap;
      if db.FailsBefore? {
        return Err("store error");
      }
      var affected: nat;
      if target.Approved? || target.Denied? || target.Failed? {
        affected := SetDecision(id, expected, target, actor, clock);
      } else {
        affected := SetStatus(id, expected, target, actor, clock);
      }
      return Answer(db, affected > 0);
    }

    method ExpireOldRequests(clock: Instant, db: Outcome) returns (r: Result<nat>)
      requires Valid()
      modifies this
      ensures Valid()
      ensures contents == Committed(db, old(contents), Sweep(Sqlite, old(contents), clock))
      ensures r == Answer(db, |OverdueIds(Sqlite, old(contents), clock)|)
    {
      hide Format, Parse, Less;
      var now := Format(clock);
      if db.FailsBefore? {
        return Err("store error");
      }
      var hits := set id | id in rows && rows[id].status.Pending? && AtMost(rows[id].expiresAt, now);
      assert hits == OverdueIds(Sqlite, contents, clock);
      rows := map id | id in rows :: if id in hits then rows[id].(status := Expired) else rows[id];
      contents := Sweep(Sqlite, contents, clock);
      return Answer(db, |hits|);
    }

    method Delete(id: string, db: Outcome) returns (r: Result<()>)
      requires Valid()
      modifies this
      ensures Valid()
      ensures contents == Committed(db, old(contents), old(contents) - {id})
      ensures r == Answer(db, ())
    {
      hide Encode;
      if !db.FailsBefore? {
        rows, contents := rows - {id}, contents - {id};
      }
      return Answer(db, ());
    }

    method ListPending(clock: Instant, db: Outcome) returns (r: Result<seq<Request>>)
      requires Valid()
      ensures r.Ok? <==> db.Works?
      ensures r.Ok? ==> IsPendingList(Sqlite, contents, clock, r.value)
    {
      hide Format, Parse, Less, Older;
      var now := Format(clock);
      if !db.Works? {
        return Err("store error");
      }
      var todo := rows.Keys;
      var result: seq<Request> := [];
      while todo != {}
        invariant todo <= rows.Keys
        invariant NewestFirst(Sqlite, result)
        invariant forall r :: r in result ==>
                    && r.id in rows.Keys - todo
                    && Fetch(Sqlite, contents, r.id) == Some(r) && Listed(Sqlite, r, clock)
        invariant forall id :: id in rows.Keys - todo && Listed(Sqlite, contents[id], clock) ==>
                    exists r :: r in result && r.id == id
        decreases todo
      {
        var id :| id in todo;
        todo := todo - {id};
        if rows[id].status.Pending? && Less(now, rows[id].expiresAt) {
          ScanEncode(contents[id]);
          result := InsertByCreation(Sqlite, result, Scan(rows[id]));
        }
      }
      PendingListIsLive(Sqlite, contents, clock, result);
      return Ok(result);
    }
  }
}
