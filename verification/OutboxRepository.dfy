/** The outbox store over one Postgres table, with the outcome of each call chosen by its caller. */
module OutboxRepository {
  import opened Wrappers
  import opened EventFormat
  import opened OutboxTable
  import opened Calls

  datatype StoreError = CallFailed | NotProcessing(id: int)

  method Oldest(rows: Rows, ids: set<int>) returns (id: int)
    requires ids != {} && ids <= rows.Keys
    ensures id in ids && forall other | other in ids :: rows[id].createdAt <= rows[other].createdAt
  {
    assert (forall i: int :: i !in ids) ==> ids == {};
    id :| id in ids;
    var rest := ids - {id};
    while rest != {}
      invariant rest <= ids && id in ids
      invariant forall other | other in ids && other !in rest :: rows[id].createdAt <= rows[other].createdAt
      decreases |rest|
    {
      assert (forall i: int :: i !in rest) ==> rest == {};
      var other :| other in rest;
      if rows[other].createdAt < rows[id].createdAt {
        id := other;
      }
      rest := rest - {other};
    }
  }

  class PostgresRepository {
    var rows: Rows
    var nextId: int

    ghost predicate Valid()
      reads this
    {
      Keyed(rows) && forall id | id in rows :: id < nextId
    }

    constructor ()
      ensures Valid() && rows == map[] && nextId == 1
    {
      rows, nextId := map[], 1;
    }

    /** Inserts a NEW row. The id is taken from a sequence, which never gives an id back. */
    method Create(body: Body, now: int, call: Call) returns (r: Result<Event, StoreError>)
      requires Valid()
      modifies this
      ensures Valid() && nextId == old(nextId) + 1
      ensures call.Fails? ==> rows == old(rows)
      ensures !call.Fails? ==>
                && old(nextId) !in old(rows)
                && rows == old(rows)[old(nextId) := Event(old(nextId), body, New, 0, None, None, None, now)]
      ensures r == if call.Answers? then Ok(rows[old(nextId)]) else Err(CallFailed)
    {
      var id := nextId;
      nextId := nextId + 1;
      if call.Fails? {
        return Err(CallFailed);
      }
      rows := rows[id := NewRow(id, body, now)];
      if call.AnswerLost? {
        return Err(CallFailed);
      }
      r := Ok(rows[id]);
    }

    method Select(limit: nat, cutoff: int, skipped: set<int>) returns (ids: seq<int>)
      ensures Selects(rows, limit, cutoff, skipped, ids)
    {
      var candidates := set id | id in rows && id !in skipped && Eligible(rows[id], cutoff);
      var left := candidates;
      ids := [];
      while left != {} && |ids| < limit
        invariant |ids| <= limit && Distinct(ids)
        invariant forall id | id in ids :: id in candidates && id !in left
        invariant forall id | id in candidates :: id in left || id in ids
        invariant left <= candidates
        invariant forall id, other | id in ids && other in left :: rows[id].createdAt <= rows[other].createdAt
        decreases |left|
      {
        var id := Oldest(rows, left);
        ids := ids + [id];
        left := left - {id};
      }
    }

    /** Leases up to limit rows, oldest first, and returns them as they now are. */
    method FetchBatch(limit: int, lockTimeout: int, clientNow: int, now: int, skipped: set<int>, call: Call)
      returns (r: Result<seq<Event>, StoreError>)
      requires Valid()
      modifies this`rows
      ensures Valid()
      ensures limit <= 0 ==> r == Ok([]) && rows == old(rows)
      ensures limit > 0 && call.Fails? ==> r.Err? && rows == old(rows)
      ensures limit > 0 && call.AnswerLost? ==>
                r.Err? && exists ids ::
                  Selects(old(rows), limit, clientNow - lockTimeout, skipped, ids) && rows == Leased(old(rows), ids, now)
      ensures limit > 0 && call.Answers? ==>
                && r.Ok? && |r.value| <= limit
                && Selects(old(rows), limit, clientNow - lockTimeout, skipped, Ids(r.value))
                && rows == Leased(old(rows), Ids(r.value), now)
                && forall e | e in r.value :: e.id in rows && e == rows[e.id]
    {
      if limit <= 0 {
        return Ok([]);
      }
      if call.Fails? {
        return Err(CallFailed);
      }
      var lockedBefore := clientNow - lockTimeout;
      var ids := Select(limit, lockedBefore, skipped);
      rows := Leased(rows, ids, now);
      if call.AnswerLost? {
        return Err(CallFailed);
      }
      var events: seq<Event> := [];
      for i := 0 to |ids|
        invariant |events| == i
        invariant forall id | id in ids :: id in rows && rows[id].id == id
        invariant forall j | 0 <= j < i :: events[j] == rows[ids[j]]
      {
        assert ids[i] in ids;
        events := events + [rows[ids[i]]];
      }
      assert Ids(events) == ids;
      r := Ok(events);
    }

    /** Ends a lease. It reports an error when the row is no longer PROCESSING. */
    method MarkProcessed(id: int, now: int, call: Call) returns (r: Option<StoreError>)
      requires Valid()
      modifies this`rows
      ensures Valid()
      ensures rows == if call.Fails? then old(rows) else MarkedProcessed(old(rows), id, now)
      ensures rows == if call.Fails? || id !in old(rows) || old(rows)[id].status != Processing then old(rows)
                      else old(rows)[id := old(rows)[id].(status := Processed, processedAt := Some(now),
                                                          lockedAt := None, lastError := None)]
      ensures r.None? <==> call.Answers? && id in old(rows) && old(rows)[id].status == Processing
    {
      if call.Fails? {
        return Some(CallFailed);
      }
      var affected := 0;
      if id in rows && rows[id].status == Processing {
        rows := rows[id := rows[id].(status := Processed, processedAt := Some(now), lockedAt := None, lastError := None)];
        affected := 1;
      }
      if call.AnswerLost? {
        return Some(CallFailed);
      }
      r := if affected == 0 then Some(NotProcessing(id)) else None;
    }

    /** Gives a row back for another attempt, or fails it for good once its attempts are used up. */
    method MarkFailed(id: int, reason: string, maxAttempts: nat, call: Call) returns (r: Option<StoreError>)
      requires Valid()
      modifies this`rows
      ensures Valid()
      ensures rows == if call.Fails? then old(rows) else MarkedFailed(old(rows), id, reason, maxAttempts)
      ensures rows == if call.Fails? || id !in old(rows) || old(rows)[id].status != Processing then old(rows)
                      else old(rows)[id := old(rows)[id].(
                             status := if old(rows)[id].attempts < maxAttempts then New else Failed,
                             lockedAt := None, lastError := Some(reason))]
      ensures r.None? <==> call.Answers? && id in old(rows) && old(rows)[id].status == Processing
    {
      if call.Fails? {
        return Some(CallFailed);
      }
      var affected := 0;
      if id in rows && rows[id].status == Processing {
        var status := if rows[id].attempts >= maxAttempts then Failed else New;
        rows := rows[id := rows[id].(status := status, lockedAt := None, lastError := Some(reason))];
        affected := 1;
      }
      if call.AnswerLost? {
        return Some(CallFailed);
      }
      r := if affected == 0 then Some(NotProcessing(id)) else None;
    }
  }
}
