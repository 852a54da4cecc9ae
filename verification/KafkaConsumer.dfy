/** The consumer's loop over fetched records: one transaction a record, the offset committed after it. */
module KafkaConsumer {
  import opened Wrappers
  import opened EventFormat
  import Consumers
  import Decimal

  datatype Position = Position(partition: int, offset: int, eventType: string)

  /** A record as a poll delivers it. */
  datatype Delivered = Delivered(record: Record, partition: int, offset: int)

  /** The call that fails while a record is processed, if one does. A commit whose answer is lost, of the
      transaction or of the offset, has taken effect. */
  datatype Fault =
    | NoFault | BeginFails | ReadFails | InsertFails | MarkFails | CommitFails | CommitAnswerLost
    | OffsetCommitFails | OffsetAnswerLost

  datatype Tables = Tables(processed: map<string, Position>, audit: seq<AuditRow>)

  datatype Outcome = Outcome(tables: Tables, ok: bool)

  function Recorded(t: Tables, d: Delivered, event: ConsumedEvent, row: AuditRow): Tables {
    Tables(t.processed[event.eventId := Position(d.partition, d.offset, event.eventType)], t.audit + [row])
  }

  /** The consumer transaction: dedupe, handle, mark. It answers with an error when it rolls back or
      when the answer to its commit is lost. */
  function TxRun(t: Tables, d: Delivered, event: ConsumedEvent, fault: Fault): Outcome {
    if fault in {BeginFails, ReadFails} then Outcome(t, false)
    else if event.eventId in t.processed then Outcome(t, fault !in {CommitFails, CommitAnswerLost})
    else match AuditFor(event)
      case Err(_) => Outcome(t, false)
      case Ok(row) =>
        if fault in {InsertFails, MarkFails, CommitFails} || row.sourceEventId in Consumers.Sources(t.audit)
        then Outcome(t, false)
        else Outcome(Recorded(t, d, event, row), fault != CommitAnswerLost)
  }

  /** What the router and the handler take: registrations in the one format they know. */
  predicate Accepted(event: ConsumedEvent) {
    && event.eventType == "user.registered" && event.contentType == "application/x-protobuf"
    && event.protoMessage == "events.user.v1.UserRegistered" && event.eventVersion == "v1"
    && event.payload.UserRegistered?
  }

  /** The tables after one record, whether it counts as successful, and whether its offset is committed. */
  datatype Consumption = Consumption(tables: Tables, ok: bool, kept: bool)

  function Consumed(t: Tables, d: Delivered, fault: Fault): Consumption {
    match ParseRecord(d.record)
    case Err(_) => Consumption(t, false, false)
    case Ok(event) =>
      var run := TxRun(t, d, event, fault);
      Consumption(run.tables, run.ok && fault != OffsetCommitFails && fault != OffsetAnswerLost,
                  run.ok && fault != OffsetCommitFails)
  }

  /** The tables after one partition's records, and for how many of them, from the first on, the offset has been
      committed: those before the first failure, and the failed one too if only the answer of its offset is lost. */
  datatype Progress = Progress(tables: Tables, done: nat)

  function PartitionRun(t: Tables, records: seq<Delivered>, faults: Delivered -> Fault): Progress
    decreases |records|
  {
    if records == [] then Progress(t, 0)
    else
      var first := Consumed(t, records[0], faults(records[0]));
      if !first.ok then Progress(first.tables, if first.kept then 1 else 0)
      else
        var rest := PartitionRun(first.tables, records[1..], faults);
        Progress(rest.tables, rest.done + 1)
  }

  function Continued(rest: Progress, done: nat): Progress {
    Progress(rest.tables, done + rest.done)
  }

  lemma {:induction false} RunDone(t: Tables, records: seq<Delivered>, faults: Delivered -> Fault)
    ensures PartitionRun(t, records, faults).done <= |records|
    decreases |records|
  {
    if records != [] && Consumed(t, records[0], faults(records[0])).ok {
      RunDone(Consumed(t, records[0], faults(records[0])).tables, records[1..], faults);
    }
  }

  function Advanced(offsets: map<int, int>, d: Delivered): map<int, int> {
    offsets[d.partition := d.offset + 1]
  }

  /** The committed offsets after the records have been processed one after the other. */
  function OffsetsAfter(offsets: map<int, int>, records: seq<Delivered>): map<int, int>
    decreases |records|
  {
    if records == [] then offsets else OffsetsAfter(Advanced(offsets, records[0]), records[1..])
  }

  lemma {:induction false} OffsetsAfterLast(offsets: map<int, int>, records: seq<Delivered>)
    requires records != []
    ensures var n := |records| - 1;
            OffsetsAfter(offsets, records) == Advanced(OffsetsAfter(offsets, records[..n]), records[n])
    decreases |records|
  {
    var n := |records| - 1;
    if n > 0 {
      OffsetsAfterLast(Advanced(offsets, records[0]), records[1..]);
      assert records[1..][..n - 1] == records[..n][1..];
    }
  }

  class Consumer {
    var processed: map<string, Position>
    var audit: seq<AuditRow>
    var offsets: map<int, int>

    ghost function View(): Tables
      reads this
    {
      Tables(processed, audit)
    }

    /** The transaction works on its own view of the tables, which the commit makes everyone's. */
    method WithinTx(d: Delivered, event: ConsumedEvent, fault: Fault) returns (ok: bool)
      modifies this`processed, this`audit
      ensures Outcome(View(), ok) == TxRun(old(View()), d, event, fault)
      ensures
        if event.eventId in old(processed)
        then && processed == old(processed) && audit == old(audit)
             && ok == (fault !in {BeginFails, ReadFails, CommitFails, CommitAnswerLost})
        else if || fault in {BeginFails, ReadFails, InsertFails, MarkFails, CommitFails} || !Accepted(event)
                || (exists i :: 0 <= i < |old(audit)| && old(audit)[i].sourceEventId == event.eventId)
        then !ok && processed == old(processed) && audit == old(audit)
        else && processed == old(processed)[event.eventId := Position(d.partition, d.offset, event.eventType)]
             && audit == old(audit) + [AuditRow(event.eventId, event.payload.userId, "user.registered",
                                                event.payload.email, event.payload.role)]
             && ok == (fault != CommitAnswerLost)
    {
      if fault == BeginFails || fault == ReadFails {
        return false;
      }
      var newProcessed, newAudit := processed, audit;
      var duplicate := event.eventId in newProcessed;
      if !duplicate {
        var handled := AuditFor(event);
        if handled.Err? || fault == InsertFails || handled.value.sourceEventId in Consumers.Sources(newAudit) {
          return false;
        }
        newAudit := newAudit + [handled.value];
        if fault == MarkFails {
          return false;
        }
        newProcessed := newProcessed[event.eventId := Position(d.partition, d.offset, event.eventType)];
      }
      if fault == CommitFails {
        return false;
      }
      processed, audit := newProcessed, newAudit;
      ok := fault != CommitAnswerLost;
    }

    method ProcessRecord(d: Delivered, fault: Fault) returns (ok: bool)
      modifies this
      ensures var c := Consumed(old(View()), d, fault);
        && View() == c.tables && ok == c.ok
        && offsets == if c.kept then Advanced(old(offsets), d) else old(offsets)
      ensures fault in {BeginFails, ReadFails, CommitFails, CommitAnswerLost, OffsetCommitFails} ==>
                !ok && offsets == old(offsets)
      ensures fault == OffsetAnswerLost ==> !ok
      ensures fault == NoFault ==> (ok <==> IsProcessed(View(), d.record))
      ensures ok ==> d.partition in offsets && offsets == old(offsets)[d.partition := d.offset + 1]
      ensures offsets != old(offsets) ==> exists event :: ParseRecord(d.record) == Ok(event) && event.eventId in processed
    {
      var parsed := EventFromRecord(d.record);
      if parsed.Err? {
        return false;
      }
      ok := WithinTx(d, parsed.value, fault);
      if !ok || fault == OffsetCommitFails {
        return false;
      }
      offsets := offsets[d.partition := d.offset + 1];
      ok := fault != OffsetAnswerLost;
    }

    /** The records of one partition, up to the first failure. */
    method ProcessPartition(records: seq<Delivered>, faults: Delivered -> Fault) returns (ghost done: nat)
      modifies this
      ensures Progress(View(), done) == PartitionRun(old(View()), records, faults)
      ensures done <= |records| && offsets == OffsetsAfter(old(offsets), records[..done])
    {
      done := 0;
      ghost var all, before := PartitionRun(View(), records, faults), offsets;
      for i := 0 to |records|
        invariant done == i
        invariant all == Continued(PartitionRun(View(), records[i..], faults), i)
        invariant offsets == OffsetsAfter(before, records[..i])
      {
        assert records[i..][0] == records[i] && records[i..][1..] == records[i + 1..];
        OffsetsAfterLast(before, records[..i + 1]);
        assert records[..i + 1][..i] == records[..i];
        ghost var kept := Consumed(View(), records[i], faults(records[i])).kept;
        var ok := ProcessRecord(records[i], faults(records[i]));
        done := if kept then i + 1 else i;
        if !ok {
          return;
        }
      }
    }

    /** One poll. A failure in one partition does not stop the others. */
    method ProcessFetches(fetches: seq<seq<Delivered>>, faults: Delivered -> Fault)
      modifies this
      ensures View() == PollTables(old(View()), fetches, faults)
      ensures offsets == PollOffsets(old(View()), old(offsets), fetches, faults)
    {
      ghost var t, o := View(), offsets;
      for i := 0 to |fetches|
        invariant PollTables(View(), fetches[i..], faults) == PollTables(t, fetches, faults)
        invariant PollOffsets(View(), offsets, fetches[i..], faults) == PollOffsets(t, o, fetches, faults)
      {
        assert fetches[i..][0] == fetches[i] && fetches[i..][1..] == fetches[i + 1..];
        ghost var _ := ProcessPartition(fetches[i], faults);
      }
    }
  }

  function PollTables(t: Tables, fetches: seq<seq<Delivered>>, faults: Delivered -> Fault): Tables
    decreases |fetches|
  {
    if fetches == [] then t else PollTables(PartitionRun(t, fetches[0], faults).tables, fetches[1..], faults)
  }

  function PollOffsets(t: Tables, offsets: map<int, int>, fetches: seq<seq<Delivered>>, faults: Delivered -> Fault)
    : map<int, int>
    decreases |fetches|
  {
    if fetches == [] then offsets
    else
      var run := PartitionRun(t, fetches[0], faults);
      RunDone(t, fetches[0], faults);
      PollOffsets(run.tables, OffsetsAfter(offsets, fetches[0][..run.done]), fetches[1..], faults)
  }

  // ----- the loop is a run of the step system -----

  /** The consumers' state, as these tables show it, with no transaction open. */
  predicate Mirrors(t: Tables, k: Consumers.State) {
    && k.processed == t.processed.Keys && k.audit == t.audit
    && forall c | c in k.txs :: k.txs[c].Idle?
  }

  /** The statements a transaction gets to after its dedupe read. */
  function HandlingSteps(t: Tables, c: int, event: ConsumedEvent, fault: Fault): (steps: seq<Consumers.Action>)
    ensures steps != []
  {
    if AuditFor(event).Err? || AuditFor(event).value.sourceEventId in Consumers.Sources(t.audit) then [Consumers.Insert(c)]
    else if fault in {InsertFails, MarkFails, CommitFails} then [Consumers.Abort(c)]
    else [Consumers.Insert(c), Consumers.MarkDone(c), Consumers.Commit(c)]
  }

  /** The steps of a consumer for the record at this index of the log. */
  function RecordSteps(t: Tables, c: int, i: nat, d: Delivered, fault: Fault): seq<Consumers.Action> {
    if ParseRecord(d.record).Err? || fault in {BeginFails, ReadFails} then []
    else
      var event := ParseRecord(d.record).value;
      [Consumers.Take(c, i), Consumers.Read(c)] +
      if event.eventId in t.processed then [] else HandlingSteps(t, c, event, fault)
  }

  lemma Executes(log: seq<Record>, k: Consumers.State, a: Consumers.Action, rest: seq<Consumers.Action>)
    requires Consumers.Enabled(true, log, k, a)
    ensures Consumers.Exec(true, log, k, [a] + rest) ==
            Consumers.Exec(true, log, Consumers.Apply(true, log, k, a), rest)
  {
    assert ([a] + rest)[1..] == rest;
  }

  /** Both of the transaction's writes and its commit. */
  lemma RecordedIsRun(log: seq<Record>, t: Tables, k: Consumers.State, c: int, d: Delivered, event: ConsumedEvent)
    returns (after: Consumers.State)
    requires t.processed.Keys == k.processed && t.audit == k.audit && Consumers.TxOf(k, c) == Consumers.Handling(event)
    requires forall b | b in k.txs && b != c :: k.txs[b].Idle?
    requires AuditFor(event).Ok? && AuditFor(event).value.sourceEventId !in Consumers.Sources(t.audit)
    requires event.eventId !in t.processed
    ensures Consumers.Exec(true, log, k, [Consumers.Insert(c), Consumers.MarkDone(c), Consumers.Commit(c)]) == Some(after)
    ensures Mirrors(Recorded(t, d, event, AuditFor(event).value), after)
  {
    var insert, mark, commit := Consumers.Insert(c), Consumers.MarkDone(c), Consumers.Commit(c);
    var k1 := Consumers.Apply(true, log, k, insert);
    var k2 := Consumers.Apply(true, log, k1, mark);
    after := Consumers.Apply(true, log, k2, commit);
    Executes(log, k, insert, [mark, commit]);
    Executes(log, k1, mark, [commit]);
    Executes(log, k2, commit, []);
    assert [insert, mark, commit] == [insert] + [mark, commit] && [mark, commit] == [mark] + [commit];
    assert [commit] == [commit] + [];
  }

  /** After the dedupe read: nothing was written, or everything. */
  lemma HandledIsRun(log: seq<Record>, t: Tables, k: Consumers.State, c: int, d: Delivered, event: ConsumedEvent,
                     fault: Fault)
    returns (after: Consumers.State)
    requires t.processed.Keys == k.processed && t.audit == k.audit && Consumers.TxOf(k, c) == Consumers.Handling(event)
    requires forall b | b in k.txs && b != c :: k.txs[b].Idle?
    requires event.eventId !in t.processed && fault !in {BeginFails, ReadFails}
    ensures Consumers.Exec(true, log, k, HandlingSteps(t, c, event, fault)) == Some(after)
    ensures Mirrors(TxRun(t, d, event, fault).tables, after)
  {
    var next := HandlingSteps(t, c, event, fault)[0];
    if |HandlingSteps(t, c, event, fault)| == 1 {
      after := Consumers.Apply(true, log, k, next);
      Executes(log, k, next, []);
      assert [next] == [next] + [];
    } else {
      after := RecordedIsRun(log, t, k, c, d, event);
    }
  }

  /** What becomes of one record, whichever call fails, is what a consumer's own steps lead to. */
  lemma RecordIsRun(log: seq<Record>, t: Tables, k: Consumers.State, c: int, i: nat, d: Delivered, fault: Fault)
    returns (after: Consumers.State)
    requires Mirrors(t, k) && i < |log| && log[i] == d.record
    ensures Consumers.Exec(true, log, k, RecordSteps(t, c, i, d, fault)) == Some(after)
    ensures Mirrors(Consumed(t, d, fault).tables, after)
  {
    after := k;
    if ParseRecord(d.record).Ok? && fault !in {BeginFails, ReadFails} {
      var event := ParseRecord(d.record).value;
      var take, read := Consumers.Take(c, i), Consumers.Read(c);
      var k1 := Consumers.Apply(true, log, k, take);
      var k2 := Consumers.Apply(true, log, k1, read);
      var rest := if event.eventId in t.processed then [] else HandlingSteps(t, c, event, fault);
      Executes(log, k, take, [read] + rest);
      Executes(log, k1, read, rest);
      assert [take, read] + rest == [take] + ([read] + rest);
      after := k2;
      if event.eventId !in t.processed {
        after := HandledIsRun(log, t, k2, c, d, event, fault);
      }
    }
  }

  /** Where in the whole log, which holds the records of all partitions, each delivered record stands. */
  ghost predicate Locates(log: seq<Record>, index: Delivered -> nat, records: seq<Delivered>) {
    forall d | d in records :: index(d) < |log| && log[index(d)] == d.record
  }

  function PartitionSteps(t: Tables, c: int, records: seq<Delivered>, index: Delivered -> nat, faults: Delivered -> Fault)
    : seq<Consumers.Action>
    decreases |records|
  {
    if records == [] then []
    else
      var first := Consumed(t, records[0], faults(records[0]));
      RecordSteps(t, c, index(records[0]), records[0], faults(records[0])) +
      if first.ok then PartitionSteps(first.tables, c, records[1..], index, faults) else []
  }

  /** A partition's loop, with no other consumer in between, takes exactly one consumer's steps, so what
      every interleaving keeps is kept by ProcessPartition. */
  lemma {:induction false} PartitionIsRun(log: seq<Record>, t: Tables, k: Consumers.State, c: int, records: seq<Delivered>,
                                          index: Delivered -> nat, faults: Delivered -> Fault)
    returns (after: Consumers.State)
    requires Mirrors(t, k) && Locates(log, index, records)
    ensures Consumers.Exec(true, log, k, PartitionSteps(t, c, records, index, faults)) == Some(after)
    ensures Mirrors(PartitionRun(t, records, faults).tables, after)
    decreases |records|
  {
    after := k;
    if records != [] {
      var d := records[0];
      var first := Consumed(t, d, faults(d));
      var steps := RecordSteps(t, c, index(d), d, faults(d));
      after := RecordIsRun(log, t, k, c, index(d), d, faults(d));
      var middle := after;
      var rest := if first.ok then PartitionSteps(first.tables, c, records[1..], index, faults) else [];
      if first.ok {
        after := PartitionIsRun(log, first.tables, middle, c, records[1..], index, faults);
      }
      Consumers.ExecAppend(true, log, k, steps, rest);
    }
  }

  function PollSteps(t: Tables, c: int, fetches: seq<seq<Delivered>>, index: Delivered -> nat, faults: Delivered -> Fault)
    : seq<Consumers.Action>
    decreases |fetches|
  {
    if fetches == [] then []
    else
      PartitionSteps(t, c, fetches[0], index, faults) +
      PollSteps(PartitionRun(t, fetches[0], faults).tables, c, fetches[1..], index, faults)
  }

  /** The same for a whole poll over any number of partitions. */
  lemma {:induction false} PollIsRun(log: seq<Record>, t: Tables, k: Consumers.State, c: int, fetches: seq<seq<Delivered>>,
                                     index: Delivered -> nat, faults: Delivered -> Fault)
    returns (after: Consumers.State)
    requires Mirrors(t, k) && forall records | records in fetches :: Locates(log, index, records)
    ensures Consumers.Exec(true, log, k, PollSteps(t, c, fetches, index, faults)) == Some(after)
    ensures Mirrors(PollTables(t, fetches, faults), after)
    decreases |fetches|
  {
    after := k;
    if fetches != [] {
      var next := PartitionRun(t, fetches[0], faults).tables;
      var middle := PartitionIsRun(log, t, k, c, fetches[0], index, faults);
      after := PollIsRun(log, next, middle, c, fetches[1..], index, faults);
      Consumers.ExecAppend(true, log, k, PartitionSteps(t, c, fetches[0], index, faults),
                           PollSteps(next, c, fetches[1..], index, faults));
    }
  }

  // ----- what a committed offset covers -----

  predicate IsProcessed(t: Tables, r: Record) {
    ParseRecord(r).Ok? && ParseRecord(r).value.eventId in t.processed
  }

  /** Every record below the offset has been processed. */
  ghost predicate Covered(t: Tables, log: seq<Record>, offset: nat) {
    offset <= |log| && forall i | 0 <= i < offset :: IsProcessed(t, log[i])
  }

  /** A poll of one partition that starts at an offset and delivers the records from there. */
  ghost predicate Polls(log: seq<Record>, partition: int, start: nat, records: seq<Delivered>) {
    && start + |records| <= |log|
    && forall i | 0 <= i < |records| :: records[i] == Delivered(log[start + i], partition, start + i)
  }

  /** The offset the partition stands at after the poll, if it stood at committed before. */
  function CommittedAfter(committed: nat, start: nat, done: nat): nat {
    if done == 0 then committed else start + done
  }

  /** The loop commits exactly the offset behind the longest successful prefix. */
  lemma {:induction false} OffsetsCommitted(offsets: map<int, int>, log: seq<Record>, partition: int,
                                            start: nat, records: seq<Delivered>, done: nat)
    requires Polls(log, partition, start, records) && done <= |records|
    ensures OffsetsAfter(offsets, records[..done]) ==
            if done == 0 then offsets else offsets[partition := start + done]
    decreases done
  {
    if done > 0 {
      OffsetsAfterLast(offsets, records[..done]);
      assert records[..done][..done - 1] == records[..done - 1];
      OffsetsCommitted(offsets, log, partition, start, records, done - 1);
    }
  }

  lemma ConsumedProcesses(t: Tables, d: Delivered, fault: Fault)
    ensures var c := Consumed(t, d, fault);
      && (c.ok ==> c.kept)
      && (forall id | id in t.processed :: id in c.tables.processed)
      && (c.kept ==> IsProcessed(c.tables, d.record))
  {
  }

  lemma {:induction false} RunProcesses(t: Tables, records: seq<Delivered>, faults: Delivered -> Fault)
    ensures var run := PartitionRun(t, records, faults);
      && run.done <= |records|
      && (forall id | id in t.processed :: id in run.tables.processed)
      && (forall i | 0 <= i < run.done :: IsProcessed(run.tables, records[i].record))
    decreases |records|
  {
    if records != [] {
      var first := Consumed(t, records[0], faults(records[0]));
      ConsumedProcesses(t, records[0], faults(records[0]));
      if first.ok {
        RunProcesses(first.tables, records[1..], faults);
        var run := PartitionRun(t, records, faults);
        forall i | 0 <= i < run.done
          ensures IsProcessed(run.tables, records[i].record)
        {
          if i > 0 {
            assert records[1..][i - 1] == records[i];
          }
        }
      }
    }
  }

  /** When a committed offset still covers everything below it after a poll: exactly when nothing was
      committed, or the records between the old offset and the start of the poll have been processed.
      The loop does not rewind after a failure, so the condition can fail within one process. */
  lemma PollCoversIff(t: Tables, log: seq<Record>, partition: int, committed: nat, start: nat,
                      records: seq<Delivered>, faults: Delivered -> Fault)
    requires Covered(t, log, committed) && Polls(log, partition, start, records)
    ensures var run := PartitionRun(t, records, faults);
      Covered(run.tables, log, CommittedAfter(committed, start, run.done)) <==>
        (run.done == 0 || forall i | committed <= i < start :: IsProcessed(run.tables, log[i]))
  {
    var run := PartitionRun(t, records, faults);
    RunProcesses(t, records, faults);
    var offset := CommittedAfter(committed, start, run.done);
    if run.done == 0 || forall i | committed <= i < start :: IsProcessed(run.tables, log[i]) {
      forall i | 0 <= i < offset
        ensures IsProcessed(run.tables, log[i])
      {
        if i >= committed && i >= start {
          assert records[i - start].record == log[i];
        }
      }
    }
  }

  /** A partition polled from its committed offset every time, as after a restart or a rebalance. */
  datatype Poll = Poll(count: nat, faults: Delivered -> Fault)

  function Slice(log: seq<Record>, partition: int, start: nat, count: nat): seq<Delivered>
    requires start + count <= |log|
  {
    seq(count, i requires 0 <= i < count => Delivered(log[start + i], partition, start + i))
  }

  datatype Stand = Stand(tables: Tables, committed: nat)

  function PollFrom(log: seq<Record>, partition: int, s: Stand, poll: Poll): (t: Stand)
    requires s.committed <= |log|
    ensures t.committed <= |log|
  {
    var count := if s.committed + poll.count <= |log| then poll.count else |log| - s.committed;
    var run := PartitionRun(s.tables, Slice(log, partition, s.committed, count), poll.faults);
    RunDone(s.tables, Slice(log, partition, s.committed, count), poll.faults);
    Stand(run.tables, CommittedAfter(s.committed, s.committed, run.done))
  }

  function PollAll(log: seq<Record>, partition: int, s: Stand, polls: seq<Poll>): Stand
    requires s.committed <= |log|
    decreases |polls|
  {
    if polls == [] then s else PollAll(log, partition, PollFrom(log, partition, s, polls[0]), polls[1..])
  }

  /** If every poll starts at the committed offset, the committed offset covers every lower record,
      after any number of polls failing anywhere. */
  lemma {:induction false} RestartedPollsCover(log: seq<Record>, partition: int, s: Stand, polls: seq<Poll>)
    requires Covered(s.tables, log, s.committed)
    ensures var end := PollAll(log, partition, s, polls);
            Covered(end.tables, log, end.committed) && end.committed >= s.committed
    decreases |polls|
  {
    if polls != [] {
      var poll := polls[0];
      var count := if s.committed + poll.count <= |log| then poll.count else |log| - s.committed;
      PollCoversIff(s.tables, log, partition, s.committed, s.committed,
                    Slice(log, partition, s.committed, count), poll.faults);
      RestartedPollsCover(log, partition, PollFrom(log, partition, s, poll), polls[1..]);
    }
  }

  /** The loop without a rewind: the first record fails, the next poll starts behind it and commits
      past it, and the committed offset then covers a record nobody processed. */
  lemma SkippedRecord() returns (t: Tables, log: seq<Record>, first: seq<Delivered>, second: seq<Delivered>,
                                 faults: Delivered -> Fault)
    ensures Covered(t, log, 0) && Polls(log, 0, 0, first) && Polls(log, 0, 1, second)
    ensures
      var run1 := PartitionRun(t, first, faults);
      var run2 := PartitionRun(run1.tables, second, faults);
      && run1.done == 0 && run2.done == 1
      && !Covered(run2.tables, log, CommittedAfter(CommittedAfter(0, 0, run1.done), 1, run2.done))
  {
    var r1 := RecordOf(1, UserRegisteredBody(1, "a@example.com", "USER"), 0);
    var r2 := RecordOf(2, UserRegisteredBody(2, "b@example.com", "USER"), 0);
    log, t := [r1, r2], Tables(map[], []);
    faults := (d: Delivered) => if d.offset == 0 then BeginFails else NoFault;
    first, second := [Delivered(r1, 0, 0)], [Delivered(r2, 0, 1)];
    PublishParseRoundTrip(1, UserRegisteredBody(1, "a@example.com", "USER"), 0);
    PublishParseRoundTrip(2, UserRegisteredBody(2, "b@example.com", "USER"), 0);
    assert PartitionRun(t, first, faults) == Progress(t, 0);
    var next := Consumed(t, second[0], NoFault);
    assert next.ok && next.tables.processed.Keys == {Decimal.FormatInt(2)};
    assert second[1..] == [];
    assert PartitionRun(t, second, faults) == Progress(next.tables, 1);
    if Decimal.FormatInt(1) == Decimal.FormatInt(2) {
      Decimal.FormatInjective(1, 2);
    }
    assert !IsProcessed(next.tables, log[0]);
  }
}
