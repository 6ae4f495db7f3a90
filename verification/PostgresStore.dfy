/** The PostgreSQL store: the same statements as the SQLite store over exact timestamps. */
module PostgresStore {
  import opened Timestamp
  import opened Wrappers
  import opened Requests

  class Store {
    var rows: Table  // NULL is the empty string, or `None`

    ghost predicate Valid()
      reads this
    {
      forall id :: id in rows ==> rows[id].id == id
    }

    constructor ()
      ensures Valid() && rows == map[]
    {
      rows := map[];
    }

    method Create(req: Request, db: Outcome) returns (r: Result<()>)
      requires Valid()
      modifies this
      ensures Valid()
      ensures rows == Committed(db, old(rows), Insert(Postgres, old(rows), req).0)
      ensures r.Ok? <==> db.Works? && Insert(Postgres, old(rows), req).1
    {
      if db.FailsBefore? || req.id in rows {
        return Err("insert failed");
      }
      rows := rows[req.id := req.(approvedBy := "", approvedAt := None, output := None, exitCode := None)];
      return if db.Works? then Ok(()) else Err("insert failed");
    }

    method Get(id: string, db: Outcome) returns (r: Result<Option<Request>>)
      ensures r == Answer(db, Fetch(Postgres, rows, id))
    {
      if !db.Works? {
        return Err("store error");
      }
      return Ok(if id in rows then Some(rows[id].(output := None, exitCode := None)) else None);
    }

    /** Records the actor and the time, provided the request is in the expected state and has not expired. */
    method SetDecision(id: string, expected: Status, target: Status, actor: string, now: Instant)
      returns (affected: nat)
      requires Valid() && IsDecision(target)
      modifies this
      ensures Valid()
      ensures (rows, affected > 0) == Swap(Postgres, old(rows), id, expected, target, actor, now)
    {
      hide Nanos, Format;
      affected := 0;
      if id in rows && rows[id].status == expected && Before(now, rows[id].expiresAt) {
        rows := rows[id := rows[id].(status := target, approvedBy := actor, approvedAt := Some(now))];
        affected := 1;
      }
    }

    /** Changes the status only. */
    method SetStatus(id: string, expected: Status, target: Status, ghost actor: string, ghost now: Instant)
      returns (affected: nat)
      requires Valid() && !IsDecision(target)
      modifies this
      ensures Valid()
      ensures (rows, affected > 0) == Swap(Postgres, old(rows), id, expected, target, actor, now)
    {
      hide Nanos, Format;
      affected := 0;
      if id in rows && rows[id].status == expected {
        rows := rows[id := rows[id].(status := target)];
        affected := 1;
      }
    }

    method UpdateStateIf(id: string, expected: Status, target: Status, actor: string, now: Instant, db: Outcome)
      returns (r: Result<bool>)
      requires Valid()
      modifies this
      ensures Valid()
      ensures rows == Committed(db, old(rows), Swap(Postgres, old(rows), id, expected, target, actor, now).0)
      ensures r == Answer(db, Swap(Postgres, old(rows), id, expected, target, actor, now).1)
    {
      hide Swap;
      if db.FailsBefore? {
        return Err("store error");
      }
      var affected: nat;
      if target.Approved? {
        affected := SetDecision(id, expected, target, actor, now);
      } else if target.Expired? {
        affected := SetStatus(id, expected, target, actor, now);
      } else if target.Denied? || target.Failed? {
        affected := SetDecision(id, expected, target, actor, now);
      } else {
        affected := SetStatus(id, expected, target, actor, now);
      }
      return Answer(db, affected > 0);
    }

    method Update(req: Request, db: Outcome) returns (r: Result<()>)
      requires Valid()
      modifies this
      ensures Valid()
      ensures rows == Committed(db, old(rows), Overwrite(Postgres, old(rows), req))
      ensures r == Answer(db, ())
    {
      if !db.FailsBefore? && req.id in rows {
        rows := rows[req.id := rows[req.id].(status := req.status, approvedBy := req.approvedBy,
                                             approvedAt := req.approvedAt,
                                             output := req.output, exitCode := req.exitCode)];
      }
      return Answer(db, ());
    }

    method ListPending(now: Instant, db: Outcome) returns (r: Result<seq<Request>>)
      requires Valid()
      ensures r.Ok? <==> db.Works?
      ensures r.Ok? ==> IsPendingList(Postgres, rows, now, r.value)
    {
      hide Format, Nanos, Older;
      if !db.Works? {
        return Err("store error");
      }
      var todo := rows.Keys;
      var result: seq<Request> := [];
      while todo != {}
        invariant todo <= rows.Keys
        invariant NewestFirst(Postgres, result)
        invariant forall r :: r in result ==>
                    && r.id in rows.Keys - todo
                    && Fetch(Postgres, rows, r.id) == Some(r) && Listed(Postgres, r, now)
        invariant forall id :: id in rows.Keys - todo && Listed(Postgres, rows[id], now) ==>
                    exists r :: r in result && r.id == id
        decreases todo
      {
        var id :| id in todo;
        todo := todo - {id};
        if rows[id].status.Pending? && Before(now, rows[id].expiresAt) {
          result := InsertByCreation(Postgres, result, rows[id].(output := None, exitCode := None));
        }
      }
      PendingListIsLive(Postgres, rows, now, result);
      return Ok(result);
    }

    method Delete(id: string, db: Outcome) returns (r: Result<()>)
      requires Valid()
      modifies this
      ensures Valid()
      ensures rows == Committed(db, old(rows), old(rows) - {id})
      ensures r == Answer(db, ())
    {
      if !db.FailsBefore? {
        rows := rows - {id};
      }
      return Answer(db, ());
    }

    method ExpireOldRequests(now: Instant, db: Outcome) returns (r: Result<nat>)
      requires Valid()
      modifies this
      ensures Valid()
      ensures rows == Committed(db, old(rows), Sweep(Postgres, old(rows), now))
      ensures r == Answer(db, |OverdueIds(Postgres, old(rows), now)|)
    {
      hide Nanos, Format;
      if db.FailsBefore? {
        return Err("store error");
      }
      var hits := set id | id in rows && rows[id].status.Pending? && !Before(now, rows[id].expiresAt);
      assert hits == OverdueIds(Postgres, rows, now);
      rows := map id | id in rows :: if id in hits then rows[id].(status := Expired) else rows[id];
      return Answer(db, |hits|);
    }
  }
}
