/** The in-memory store: a map to request objects that never leave the store and are replaced, not edited. */
module MemoryStore {
  import opened Timestamp
  import opened Wrappers
  import opened Requests

  /** `ElevationRequest` as the object callers pass around and may go on editing. */
  class ElevationRequest {
    var id: string
    var command: string
    var reason: string
    var requester: string
    var targetSystem: string
    var status: Status
    var createdAt: Instant
    var expiresAt: Instant
    var approvedBy: string
    var approvedAt: Option<Instant>
    var notifyChatId: int
    var ipAddress: string
    var userAgent: string
    var output: Option<string>
    var exitCode: Option<int>

    function Value(): Request
      reads this
    {
      Request(id, command, reason, requester, targetSystem, status, createdAt, expiresAt, approvedBy, approvedAt,
              notifyChatId, ipAddress, userAgent, output, exitCode)
    }

    constructor Copy(r: Request)
      ensures Value() == r
    {
      id, command, reason, requester, targetSystem := r.id, r.command, r.reason, r.requester, r.targetSystem;
      status, createdAt, expiresAt := r.status, r.createdAt, r.expiresAt;
      approvedBy, approvedAt := r.approvedBy, r.approvedAt;
      notifyChatId, ipAddress, userAgent := r.notifyChatId, r.ipAddress, r.userAgent;
      output, exitCode := r.output, r.exitCode;
    }
  }

  /** The object currently stands for this request. */
  ghost predicate Holds(o: ElevationRequest, r: Request)
    reads o
  {
    o.Value() == r && o.id == r.id && o.status == r.status && o.expiresAt == r.expiresAt
  }

  /** `deepCopyElevationRequest`. */
  method DeepCopy(req: ElevationRequest?) returns (copy: ElevationRequest?)
    ensures req == null <==> copy == null
    ensures req != null ==> fresh(copy) && copy.Value() == req.Value() && Holds(copy, req.Value())
  {
    if req == null {
      return null;
    }
    copy := new ElevationRequest.Copy(req.Value());
  }

  /** The edited copy that `UpdateStateIf` stores. */
  method Transitioned(req: ElevationRequest, target: Status, actor: string, clock: Instant)
    returns (copy: ElevationRequest)
    ensures fresh(copy) && copy.id == req.id
    ensures Holds(copy, Swapped(Memory, req.Value(), target, actor, clock))
  {
    hide Format;
    copy := DeepCopy(req);
    copy.status := target;
    if target.Approved? && actor != "" {
      copy.approvedBy := actor;
      copy.approvedAt := Some(clock);
    } else {
      copy.approvedBy := "";
      copy.approvedAt := None;
    }
  }

  /** The edited copy that `ExpireOldRequests` stores. */
  method Lapsed(req: ElevationRequest) returns (copy: ElevationRequest)
    ensures fresh(copy) && copy.id == req.id && Holds(copy, req.Value().(status := Expired))
  {
    copy := DeepCopy(req);
    copy.status := Expired;
  }

  /** The table when the sweep has still to visit the requests `todo`. */
  ghost function PartlySwept(was: Table, todo: set<string>, now: Instant): Table {
    map id | id in was :: if id in todo then was[id] else Swept(Memory, was[id], now)
  }

  /** How many requests the sweep has expired when it has still to visit `todo`. */
  ghost function Hits(was: Table, todo: set<string>, now: Instant): nat {
    |OverdueIds(Memory, was, now) - todo|
  }

  lemma SweepStarts(was: Table, now: Instant)
    ensures was == PartlySwept(was, was.Keys, now) && Hits(was, was.Keys, now) == 0
  {
    assert OverdueIds(Memory, was, now) - was.Keys == {};
  }

  lemma SweepStep(was: Table, todo: set<string>, id: string, now: Instant)
    requires id in todo && todo <= was.Keys
    ensures PartlySwept(was, todo, now)[id] == was[id]
    ensures PartlySwept(was, todo - {id}, now) == PartlySwept(was, todo, now)[id := Swept(Memory, was[id], now)]
    ensures Hits(was, todo - {id}, now) == Hits(was, todo, now) + (if Overdue(Memory, was[id], now) then 1 else 0)
  {
    hide Overdue, Swept;
    var hits := OverdueIds(Memory, was, now);
    if Overdue(Memory, was[id], now) {
      assert hits - (todo - {id}) == (hits - todo) + {id};
    } else {
      assert hits - (todo - {id}) == hits - todo;
    }
  }

  lemma SweepEnds(was: Table, now: Instant)
    ensures PartlySwept(was, {}, now) == Sweep(Memory, was, now)
    ensures Hits(was, {}, now) == |OverdueIds(Memory, was, now)|
  {
    assert OverdueIds(Memory, was, now) - {} == OverdueIds(Memory, was, now);
  }

  /** The object has the value of a stored request that is pending and live when the traversal comes to it. */
  ghost predicate IsListedCopy(o: ElevationRequest, t: Table, reading: string -> Instant)
    reads o
  {
    o.id in t && o.Value() == t[o.id] && Listed(Memory, t[o.id], reading(o.id))
  }

  lemma PendingIsListed(r: Request, now: Instant)
    ensures Listed(Memory, r, now) <==> r.status == Pending && Nanos(now) < Nanos(r.expiresAt)
  {
  }

  class Store {
    var requests: map<string, ElevationRequest>
    ghost var contents: Table  // the values of the stored objects
    ghost var Repr: set<ElevationRequest>  // the stored objects: callers share none of them, and none is edited

    ghost predicate Valid()
      reads this, Repr
      ensures Valid() ==> requests.Keys == contents.Keys
    {
      && requests.Keys == contents.Keys && requests.Values <= Repr
      && forall id :: id in requests ==> Holds(requests[id], contents[id]) && contents[id].id == id
    }

    constructor ()
      ensures Valid() && contents == map[] && Repr == {}
    {
      requests, contents, Repr := map[], map[], {};
    }

    /** `s.requests[id] = copy`. */
    method Put(copy: ElevationRequest, ghost r: Request)
      requires Valid() && Holds(copy, r)
      modifies this
      ensures Valid() && Repr == old(Repr) + {copy}
      ensures contents == old(contents)[r.id := r]
    {
      requests := requests[copy.id := copy];
      contents, Repr := contents[r.id := r], Repr + {copy};
    }

    method Create(req: ElevationRequest)
      requires Valid()
      modifies this
      ensures Valid() && fresh(Repr - old(Repr))
      ensures contents == Insert(Memory, old(contents), req.Value()).0
    {
      var copy := DeepCopy(req);
      Put(copy, copy.Value());
    }

    method Get(id: string) returns (result: ElevationRequest?)
      requires Valid()
      ensures result != null ==> fresh(result)
      ensures (if result == null then None else Some(result.Value())) == Fetch(Memory, contents, id)
    {
      result := DeepCopy(if id in requests then requests[id] else null);
    }

    method Update(req: ElevationRequest)
      requires Valid()
      modifies this
      ensures Valid() && fresh(Repr - old(Repr))
      ensures contents == Overwrite(Memory, old(contents), req.Value())
    {
      var copy := DeepCopy(req);
      Put(copy, copy.Value());
    }

    method UpdateStateIf(id: string, expected: Status, target: Status, actor: string, clock: Instant)
      returns (success: bool)
      requires Valid()
      modifies this
      ensures Valid() && fresh(Repr - old(Repr))
      ensures (contents, success) == Swap(Memory, old(contents), id, expected, target, actor, clock)
    {
      hide Nanos, Format, Swapped, ElevationRequest.Value;
      if id !in requests {
        return false;
      }
      var req := requests[id];
      if req.status != expected {
        return false;
      }
      if Before(req.expiresAt, clock) {
        return false;
      }
      var copy := Transitioned(req, target, actor, clock);
      Put(copy, copy.Value());
      return true;
    }

    method Delete(id: string)
      requires Valid()
      modifies this
      ensures Valid() && fresh(Repr - old(Repr))
      ensures contents == old(contents) - {id}
    {
      requests, contents := requests - {id}, contents - {id};
    }

    /** One round of the loop in `ExpireOldRequests`. */
    method ExpireOne(id: string, now: Instant) returns (expired: bool)
      requires Valid() && id in contents
      modifies this
      ensures Valid() && fresh(Repr - old(Repr))
      ensures contents == old(contents)[id := Swept(Memory, old(contents)[id], now)]
      ensures expired == Overdue(Memory, old(contents)[id], now)
    {
      hide Nanos, Format, ElevationRequest.Value;
      var req := requests[id];
      expired := req.status.Pending? && Before(req.expiresAt, now);
      if expired {
        var copy := Lapsed(req);
        Put(copy, copy.Value());
      }
    }

    method ExpireOldRequests(now: Instant) returns (expiredCount: nat)
      requires Valid()
      modifies this
      ensures Valid() && fresh(Repr - old(Repr))
      ensures contents == Sweep(Memory, old(contents), now)
      ensures expiredCount == |OverdueIds(Memory, old(contents), now)|
    {
      hide *;
      ghost var was := contents;
      expiredCount := 0;
      var todo := requests.Keys;
      SweepStarts(was, now);
      while todo != {}
        invariant Valid()
        invariant fresh(Repr - old(Repr))
        invariant todo <= contents.Keys
        invariant contents == PartlySwept(was, todo, now)
        invariant expiredCount == Hits(was, todo, now)
        decreases todo
      {
        var id :| id in todo;
        SweepStep(was, todo, id, now);
        var expired := ExpireOne(id, now);
        expiredCount := expiredCount + if expired then 1 else 0;
        todo := todo - {id};
      }
      SweepEnds(was, now);
    }

    /** Copies of the pending requests whose expiry lies ahead, in the arbitrary order of a map traversal. The clock is
        read anew for each request: `reading` says what it shows when the traversal comes to it. */
    method ListPending(reading: string -> Instant) returns (result: seq<ElevationRequest>)
      requires Valid()
      ensures forall i :: 0 <= i < |result| ==>
                fresh(result[i]) && IsListedCopy(result[i], contents, reading)
      ensures forall id :: id in contents && Listed(Memory, contents[id], reading(id)) ==>
                exists i :: 0 <= i < |result| && result[i].id == id
      ensures forall i, j :: 0 <= i < j < |result| ==> result[i].id != result[j].id
    {
      hide Nanos, Format, ElevationRequest.Value, Listed;
      result := [];
      var todo := requests.Keys;
      while todo != {}
        invariant todo <= requests.Keys
        invariant forall i :: 0 <= i < |result| ==>
                    && fresh(result[i]) && result[i].id in requests.Keys - todo
                    && IsListedCopy(result[i], contents, reading)
        invariant forall id :: id in requests.Keys - todo && Listed(Memory, contents[id], reading(id)) ==>
                    exists i :: 0 <= i < |result| && result[i].id == id
        invariant forall i, j :: 0 <= i < j < |result| ==> result[i].id != result[j].id
        decreases todo
      {
        var id :| id in todo;
        todo := todo - {id};
        var req := requests[id];
        PendingIsListed(contents[id], reading(id));
        if req.status.Pending? && Before(reading(id), req.expiresAt) {
          var copy := DeepCopy(req);
          ghost var listed := result;
          result := result + [copy];
          assert result[|listed|].id == id && IsListedCopy(copy, contents, reading);
          assert forall i :: 0 <= i < |listed| ==> result[i] == listed[i];
        }
      }
    }
  }
}
