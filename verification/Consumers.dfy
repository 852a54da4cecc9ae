/**
  The consuming half as a step system: any number of consumers reading any record of the log, any
  number of times, their transactions interleaved statement by statement under READ COMMITTED.
  auditKey says whether user_audit_events.source_event_id is unique, as the migration makes it.
 */
module Consumers {
  import opened Wrappers
  import opened EventFormat

  /** How far one consumer's transaction has come. Rows written by an open transaction are not visible
      to others, but a conflicting insert waits for them. */
  datatype Tx =
    | Idle
    | Reading(event: ConsumedEvent)
    | Handling(event: ConsumedEvent)
    | Audited(event: ConsumedEvent, row: AuditRow)
    | Marked(event: ConsumedEvent, row: AuditRow, inserted: bool)

  datatype State = State(processed: set<string>, audit: seq<AuditRow>, txs: map<int, Tx>)

  datatype Action =
    | Take(c: int, i: nat)
    | Read(c: int)
    | Insert(c: int)
    | MarkDone(c: int)
    | Commit(c: int)
    | Abort(c: int)

  const INITIAL := State({}, [], map[])

  function TxOf(k: State, c: int): Tx {
    if c in k.txs then k.txs[c] else Idle
  }

  predicate Pending(tx: Tx) {
    tx.Audited? || tx.Marked?
  }

  function Sources(audit: seq<AuditRow>): set<string> {
    set i | 0 <= i < |audit| :: audit[i].sourceEventId
  }

  /** Another open transaction has inserted an audit row with this source id. */
  ghost predicate AuditLocked(k: State, c: int, source: string) {
    exists d :: d in k.txs && d != c && Pending(k.txs[d]) && k.txs[d].row.sourceEventId == source
  }

  ghost predicate MarkLocked(k: State, c: int, eventId: string) {
    exists d :: d in k.txs && d != c && k.txs[d].Marked? && k.txs[d].inserted && k.txs[d].event.eventId == eventId
  }

  ghost predicate Enabled(auditKey: bool, log: seq<Record>, k: State, a: Action) {
    match a
    case Take(c, i) => TxOf(k, c).Idle? && i < |log| && ParseRecord(log[i]).Ok?
    case Read(c) => TxOf(k, c).Reading?
    case Insert(c) =>
      && TxOf(k, c).Handling?
      && (auditKey && AuditFor(TxOf(k, c).event).Ok? ==>
            !AuditLocked(k, c, AuditFor(TxOf(k, c).event).value.sourceEventId))
    case MarkDone(c) => TxOf(k, c).Audited? && !MarkLocked(k, c, TxOf(k, c).event.eventId)
    case Commit(c) => TxOf(k, c).Marked?
    case Abort(c) => true
  }

  function Apply(auditKey: bool, log: seq<Record>, k: State, a: Action): State
    requires Enabled(auditKey, log, k, a)
  {
    match a
    case Take(c, i) => k.(txs := k.txs[c := Reading(ParseRecord(log[i]).value)])
    case Read(c) =>
      var event := TxOf(k, c).event;
      k.(txs := k.txs[c := if event.eventId in k.processed then Idle else Handling(event)])
    case Insert(c) =>
      var event := TxOf(k, c).event;
      var next := match AuditFor(event)
        case Err(_) => Idle
        case Ok(row) =>
          if auditKey && row.sourceEventId in Sources(k.audit) then Idle else Audited(event, row);
      k.(txs := k.txs[c := next])
    case MarkDone(c) =>
      var tx := TxOf(k, c);
      k.(txs := k.txs[c := Marked(tx.event, tx.row, tx.event.eventId !in k.processed)])
    case Commit(c) =>
      var tx := TxOf(k, c);
      State(if tx.inserted then k.processed + {tx.event.eventId} else k.processed,
            k.audit + [tx.row], k.txs[c := Idle])
    case Abort(c) => k.(txs := k.txs[c := Idle])
  }

  ghost function Exec(auditKey: bool, log: seq<Record>, k: State, steps: seq<Action>): Option<State>
    decreases |steps|
  {
    if steps == [] then Some(k)
    else if Enabled(auditKey, log, k, steps[0])
      then Exec(auditKey, log, Apply(auditKey, log, k, steps[0]), steps[1..])
    else None
  }

  lemma {:induction false} ExecAppend(auditKey: bool, log: seq<Record>, k: State, first: seq<Action>, second: seq<Action>)
    requires Exec(auditKey, log, k, first).Some?
    ensures Exec(auditKey, log, k, first + second) ==
            Exec(auditKey, log, Exec(auditKey, log, k, first).value, second)
    decreases |first|
  {
    if first == [] {
      assert first + second == second;
    } else {
      assert (first + second)[1..] == first[1..] + second;
      ExecAppend(auditKey, log, Apply(auditKey, log, k, first[0]), first[1..], second);
    }
  }

  predicate NoTake(steps: seq<Action>) {
    forall a | a in steps :: !a.Take?
  }

  /** Some steps of transactions that are open already lead from k to l. */
  ghost predicate Continues(log: seq<Record>, k: State, l: State) {
    exists steps :: NoTake(steps) && Exec(true, log, k, steps) == Some(l)
  }

  lemma Stays(log: seq<Record>, k: State)
    ensures Continues(log, k, k)
  {
    assert NoTake([]) && Exec(true, log, k, []) == Some(k);
  }

  lemma ContinuesOn(log: seq<Record>, k: State, m: State, l: State)
    requires Continues(log, k, m) && Continues(log, m, l)
    ensures Continues(log, k, l)
  {
    var first :| NoTake(first) && Exec(true, log, k, first) == Some(m);
    var second :| NoTake(second) && Exec(true, log, m, second) == Some(l);
    ExecAppend(true, log, k, first, second);
    assert NoTake(first + second);
  }

  lemma Continue(log: seq<Record>, k: State, m: State, a: Action) returns (l: State)
    requires Continues(log, k, m) && !a.Take? && Enabled(true, log, m, a)
    ensures l == Apply(true, log, m, a) && Continues(log, k, l)
  {
    l := Apply(true, log, m, a);
    assert NoTake([a]) && Exec(true, log, m, [a]) == Some(l);
    ContinuesOn(log, k, m, l);
  }

  // ----- invariants -----

  ghost predicate TxOk(log: seq<Record>, k: State, tx: Tx) {
    && (!tx.Idle? ==> exists i :: 0 <= i < |log| && ParseRecord(log[i]) == Ok(tx.event))
    && (Pending(tx) ==> AuditFor(tx.event) == Ok(tx.row) && tx.row.sourceEventId !in Sources(k.audit))
    && (tx.Marked? ==> tx.inserted)
  }

  ghost predicate Inv(log: seq<Record>, k: State) {
    && Sources(k.audit) == k.processed
    && (forall i, j | 0 <= i < j < |k.audit| :: k.audit[i].sourceEventId != k.audit[j].sourceEventId)
    && (forall row | row in k.audit :: exists i :: 0 <= i < |log| && AuditOf(log[i]) == Some(row))
    && (forall c | c in k.txs :: TxOk(log, k, k.txs[c]))
    && (forall c, d | c in k.txs && d in k.txs && Pending(k.txs[c]) && Pending(k.txs[d]) &&
                      k.txs[c].row.sourceEventId == k.txs[d].row.sourceEventId :: c == d)
  }

  lemma LogGrowthKeepsInv(log: seq<Record>, more: seq<Record>, k: State)
    requires Inv(log, k) && log <= more
    ensures Inv(more, k)
  {
    forall row | row in k.audit
      ensures exists i :: 0 <= i < |more| && AuditOf(more[i]) == Some(row)
    {
      var i :| 0 <= i < |log| && AuditOf(log[i]) == Some(row);
      assert more[i] == log[i];
    }
    forall c | c in k.txs
      ensures TxOk(more, k, k.txs[c])
    {
      if !k.txs[c].Idle? {
        var i :| 0 <= i < |log| && ParseRecord(log[i]) == Ok(k.txs[c].event);
        assert more[i] == log[i];
      }
    }
  }

  lemma SourcesAppend(audit: seq<AuditRow>, row: AuditRow)
    ensures Sources(audit + [row]) == Sources(audit) + {row.sourceEventId}
  {
    var more := audit + [row];
    forall s | s in Sources(audit) + {row.sourceEventId}
      ensures s in Sources(more)
    {
      if s in Sources(audit) {
        var i :| 0 <= i < |audit| && audit[i].sourceEventId == s;
        assert more[i].sourceEventId == s;
      } else {
        assert more[|audit|].sourceEventId == s;
      }
    }
  }

  lemma CommitKeepsInv(log: seq<Record>, k: State, a: Action)
    requires Inv(log, k) && a.Commit? && Enabled(true, log, k, a)
    ensures Inv(log, Apply(true, log, k, a))
  {
    var t := Apply(true, log, k, a);
    var tx := k.txs[a.c];
    assert TxOk(log, k, tx);
    SourcesAppend(k.audit, tx.row);
    forall row | row in t.audit
      ensures exists i :: 0 <= i < |log| && AuditOf(log[i]) == Some(row)
    {
      if row !in k.audit {
        var i :| 0 <= i < |log| && ParseRecord(log[i]) == Ok(tx.event);
        assert AuditOf(log[i]) == Some(row);
      }
    }
    forall i, j | 0 <= i < j < |t.audit|
      ensures t.audit[i].sourceEventId != t.audit[j].sourceEventId
    {
      assert k.audit[i].sourceEventId in Sources(k.audit);
    }
    forall c | c in t.txs
      ensures TxOk(log, t, t.txs[c])
    {
      assert c != a.c ==> TxOk(log, k, k.txs[c]);
    }
  }

  lemma StepKeepsInv(log: seq<Record>, k: State, a: Action)
    requires Inv(log, k) && Enabled(true, log, k, a)
    ensures Inv(log, Apply(true, log, k, a))
  {
    if a.Commit? {
      CommitKeepsInv(log, k, a);
    } else {
      var t := Apply(true, log, k, a);
      assert t.audit == k.audit && t.processed == k.processed;
      forall c | c in t.txs
        ensures TxOk(log, t, t.txs[c])
      {
        assert c in k.txs ==> TxOk(log, k, k.txs[c]);
      }
    }
  }

  /** The ON CONFLICT branch of the mark is dead code: whenever a transaction gets to mark its event,
      no committed and no open transaction has marked it. The audit key has stopped the others. */
  lemma OnConflictNeverFires(log: seq<Record>, k: State, c: int)
    requires Inv(log, k) && TxOf(k, c).Audited?
    ensures TxOf(k, c).event.eventId !in k.processed && !MarkLocked(k, c, TxOf(k, c).event.eventId)
  {
    assert TxOk(log, k, k.txs[c]);
    forall d | d in k.txs && d != c && k.txs[d].Marked?
      ensures k.txs[d].event.eventId != k.txs[c].event.eventId
    {
      assert TxOk(log, k, k.txs[d]);
    }
  }
}
