/**
  The outbox_events table and the statements that change it, as functions on its contents.
  The repository class and the step system of the whole pipeline both use these functions.
 */
module OutboxTable {
  import opened Wrappers
  import opened EventFormat

  datatype Status = New | Processing | Processed | Failed

  datatype Event = Event(
    id: int, body: Body, status: Status, attempts: nat, lastError: Option<string>,
    lockedAt: Option<int>, processedAt: Option<int>, createdAt: int)

  type Rows = map<int, Event>

  /** What may be true of one row in any state the service can bring it to. */
  predicate RowOk(e: Event, maxAttempts: nat) {
    && (e.status.New? ==> e.attempts < maxAttempts)
    && (e.status.Processing? <==> e.lockedAt.Some?)
    && (e.status.Processed? <==> e.processedAt.Some?)
    && (e.status.Processed? ==> e.lastError.None?)
    && (e.status.Failed? ==> e.attempts >= maxAttempts && e.lastError.Some?)
    && (!e.status.New? ==> e.attempts >= 1)
  }

  function RecordFor(e: Event): Record {
    RecordOf(e.id, e.body, e.createdAt)
  }

  predicate Terminal(e: Event) {
    e.status.Processed? || e.status.Failed?
  }

  ghost predicate Keyed(rows: Rows) {
    forall id | id in rows :: rows[id].id == id
  }

  function NewRow(id: int, body: Body, createdAt: int): Event {
    Event(id, body, New, 0, None, None, None, createdAt)
  }

  /** The where clause of the lease: new rows, and locked rows whose lock is older than the cutoff. */
  predicate Eligible(e: Event, cutoff: int) {
    e.status.New? || (e.status.Processing? && e.lockedAt.Some? && e.lockedAt.value < cutoff)
  }

  function Ids(events: seq<Event>): (ids: seq<int>)
    ensures |ids| == |events|
    ensures forall i | 0 <= i < |ids| :: ids[i] == events[i].id
  {
    seq(|events|, i requires 0 <= i < |events| => events[i].id)
  }

  ghost predicate Distinct(ids: seq<int>) {
    forall i, j | 0 <= i < j < |ids| :: ids[i] != ids[j]
  }

  /** The subselect of the lease. Rows in skipped are locked by other statements and passed over.
      The ids come back in no particular order. */
  ghost predicate Selects(rows: Rows, limit: nat, cutoff: int, skipped: set<int>, ids: seq<int>) {
    && Distinct(ids)
    && |ids| <= limit
    && (forall id | id in ids :: id in rows && id !in skipped && Eligible(rows[id], cutoff))
    && (forall other | other in rows && other !in skipped && Eligible(rows[other], cutoff) && other !in ids ::
          |ids| == limit && forall id | id in ids :: rows[id].createdAt <= rows[other].createdAt)
  }

  lemma SelectedRows(rows: Rows, limit: nat, cutoff: int, skipped: set<int>, ids: seq<int>)
    requires Selects(rows, limit, cutoff, skipped, ids)
    ensures forall i | 0 <= i < |ids| :: ids[i] in rows && Eligible(rows[ids[i]], cutoff)
  {
    forall i | 0 <= i < |ids|
      ensures ids[i] in rows && Eligible(rows[ids[i]], cutoff)
    {
      var id := ids[i];
      assert id in ids;
    }
  }

  function LeasedRow(e: Event, at: int): Event {
    e.(status := Processing, lockedAt := Some(at), attempts := e.attempts + 1)
  }

  function Leased(rows: Rows, ids: seq<int>, at: int): Rows {
    map id | id in rows :: if id in ids then LeasedRow(rows[id], at) else rows[id]
  }

  /** What a lease does to a row, column by column: it takes a row only while that is NEW, or PROCESSING under an older
      lock, and it passes over a row it could take only when full of rows that are no younger. */
  lemma LeaseByColumns(rows: Rows, limit: nat, cutoff: int, skipped: set<int>, ids: seq<int>, at: int, id: int)
    requires Selects(rows, limit, cutoff, skipped, ids) && id in rows
    ensures
      var free := id !in skipped && (|| rows[id].status == New
                                     || (rows[id].status == Processing && rows[id].lockedAt.Some? &&
                                         rows[id].lockedAt.value < cutoff));
      && |ids| <= limit && Leased(rows, ids, at).Keys == rows.Keys
      && (id in ids ==>
            free && Leased(rows, ids, at)[id] ==
                    rows[id].(status := Processing, lockedAt := Some(at), attempts := rows[id].attempts + 1))
      && (id !in ids ==> Leased(rows, ids, at)[id] == rows[id])
      && (id !in ids && free ==>
            |ids| == limit &&
            forall i | 0 <= i < |ids| :: ids[i] in rows && rows[ids[i]].createdAt <= rows[id].createdAt)
  {
    SelectedRows(rows, limit, cutoff, skipped, ids);
    if id !in ids && id !in skipped && Eligible(rows[id], cutoff) {
      forall i | 0 <= i < |ids|
        ensures rows[ids[i]].createdAt <= rows[id].createdAt
      {
        var taken := ids[i];
        assert taken in ids;
      }
    }
  }

  function ProcessedRow(e: Event, at: int): Event {
    e.(status := Processed, processedAt := Some(at), lockedAt := None, lastError := None)
  }

  function FailedRow(e: Event, reason: string, maxAttempts: nat): Event {
    e.(status := if e.attempts >= maxAttempts then Failed else New, lockedAt := None, lastError := Some(reason))
  }

  /** Both marks match a row only while it is PROCESSING, whoever leased it. */
  predicate Matches(rows: Rows, id: int) {
    id in rows && rows[id].status.Processing?
  }

  function MarkedProcessed(rows: Rows, id: int, at: int): Rows {
    if Matches(rows, id) then rows[id := ProcessedRow(rows[id], at)] else rows
  }

  function MarkedFailed(rows: Rows, id: int, reason: string, maxAttempts: nat): Rows {
    if Matches(rows, id) then rows[id := FailedRow(rows[id], reason, maxAttempts)] else rows
  }

  /** Every statement keeps the row invariant, from insertion on. */
  lemma StatementsKeepRowOk(e: Event, maxAttempts: nat, at: int, cutoff: int, reason: string)
    requires maxAttempts >= 1
    requires RowOk(e, maxAttempts)
    ensures forall id, body, createdAt :: RowOk(NewRow(id, body, createdAt), maxAttempts)
    ensures Eligible(e, cutoff) ==> RowOk(LeasedRow(e, at), maxAttempts)
    ensures e.status.Processing? ==>
              RowOk(ProcessedRow(e, at), maxAttempts) && RowOk(FailedRow(e, reason, maxAttempts), maxAttempts)
  {
  }

  /** A distinct sequence of ids loses its head entirely when the head is dropped. */
  lemma DistinctTail(ids: seq<int>)
    requires Distinct(ids) && ids != []
    ensures Distinct(ids[1..]) && ids[0] !in ids[1..]
    ensures forall id | id in ids :: id == ids[0] || id in ids[1..]
  {
  }
}
