/**
  The consumer's loop over one partition within one process: the position moves on by what was fetched,
  whatever fails, and the committed offset moves as records succeed.
 */
module ConsumerLoop {
  import opened EventFormat
  import opened KafkaConsumer
  import Consumers

  datatype Loop = Loop(tables: Tables, position: nat, committed: nat)

  function Batch(log: seq<Record>, partition: int, l: Loop, poll: Poll): seq<Delivered>
    requires l.position <= |log|
  {
    Slice(log, partition, l.position, if l.position + poll.count <= |log| then poll.count else |log| - l.position)
  }

  lemma BatchAt(log: seq<Record>, partition: int, l: Loop, poll: Poll, d: Delivered)
    requires l.position <= |log| && d in Batch(log, partition, l, poll)
    ensures l.position <= d.offset < l.position + |Batch(log, partition, l, poll)| <= |log|
    ensures d == Delivered(log[d.offset], partition, d.offset)
  {
    var batch := Batch(log, partition, l, poll);
    var i :| 0 <= i < |batch| && batch[i] == d;
  }

  function Handled(log: seq<Record>, partition: int, l: Loop, poll: Poll): Progress
    requires l.position <= |log|
  {
    PartitionRun(l.tables, Batch(log, partition, l, poll), poll.faults)
  }

  function Next(log: seq<Record>, partition: int, l: Loop, poll: Poll): (n: Loop)
    requires l.position <= |log|
    ensures l.position <= n.position <= |log|
    ensures l.committed <= l.position ==> l.committed <= n.committed <= n.position
  {
    var run := Handled(log, partition, l, poll);
    RunDone(l.tables, Batch(log, partition, l, poll), poll.faults);
    Loop(run.tables, l.position + |Batch(log, partition, l, poll)|, CommittedAfter(l.committed, l.position, run.done))
  }

  function After(log: seq<Record>, partition: int, l: Loop, polls: seq<Poll>): (end: Loop)
    requires l.position <= |log|
    ensures l.position <= end.position <= |log|
    ensures l.committed <= l.position ==> l.committed <= end.committed <= end.position
    decreases |polls|
  {
    if polls == [] then l else After(log, partition, Next(log, partition, l, polls[0]), polls[1..])
  }

  lemma OnePartition(t: Tables, offsets: map<int, int>, records: seq<Delivered>, faults: Delivered -> Fault)
    ensures var run := PartitionRun(t, records, faults);
      && run.done <= |records|
      && PollTables(t, [records], faults) == run.tables
      && PollOffsets(t, offsets, [records], faults) == OffsetsAfter(offsets, records[..run.done])
  {
    RunDone(t, records, faults);
    assert [records][1..] == [];
  }

  /** The offsets after a group has come from one offset to another: unchanged as long as it commits nothing. */
  function Carried(offsets: map<int, int>, partition: int, start: nat, committed: nat): map<int, int> {
    if committed == start then offsets else offsets[partition := committed]
  }

  /** A group that stood at start, having committed that or nothing, stands at what it has committed since. */
  lemma CarriedStands(offsets: map<int, int>, partition: int, start: nat, committed: nat)
    requires start == if partition in offsets then offsets[partition] else 0
    ensures var after := Carried(offsets, partition, start, committed);
            committed == if partition in after then after[partition] else 0
  {
  }

  lemma CommitsCarry(log: seq<Record>, partition: int, l: Loop, poll: Poll, offsets: map<int, int>, done: nat)
    requires l.committed <= l.position <= |log| && done <= |Batch(log, partition, l, poll)|
    ensures OffsetsAfter(offsets, Batch(log, partition, l, poll)[..done]) ==
            Carried(offsets, partition, l.committed, CommittedAfter(l.committed, l.position, done))
  {
    OffsetsCommitted(offsets, log, partition, l.position, Batch(log, partition, l, poll), done);
  }

  lemma PollIsNext(log: seq<Record>, partition: int, l: Loop, poll: Poll, offsets: map<int, int>)
    requires l.committed <= l.position <= |log|
    ensures PollTables(l.tables, [Batch(log, partition, l, poll)], poll.faults) == Next(log, partition, l, poll).tables
    ensures PollOffsets(l.tables, offsets, [Batch(log, partition, l, poll)], poll.faults) ==
            Carried(offsets, partition, l.committed, Next(log, partition, l, poll).committed)
  {
    var batch := Batch(log, partition, l, poll);
    OnePartition(l.tables, offsets, batch, poll.faults);
    CommitsCarry(log, partition, l, poll, offsets, Handled(log, partition, l, poll).done);
  }

  /** One poll of the consumer is one step of the loop. */
  method PollOnce(consumer: Consumer, log: seq<Record>, partition: int, position: nat, poll: Poll, ghost l: Loop)
    returns (next: nat)
    requires l.committed <= l.position == position <= |log| && l.tables == consumer.View()
    modifies consumer
    ensures next == Next(log, partition, l, poll).position && consumer.View() == Next(log, partition, l, poll).tables
    ensures consumer.offsets ==
            Carried(old(consumer.offsets), partition, l.committed, Next(log, partition, l, poll).committed)
  {
    var count := if position + poll.count <= |log| then poll.count else |log| - position;
    var batch := Slice(log, partition, position, count);
    PollIsNext(log, partition, l, poll, consumer.offsets);
    consumer.ProcessFetches([batch], poll.faults);
    next := position + count;
  }

  /** The consumer's endless loop, stopped after a list of polls. */
  method RunFrom(consumer: Consumer, log: seq<Record>, partition: int, start: nat, polls: seq<Poll>)
    returns (ghost end: Loop)
    requires start <= |log|
    modifies consumer
    ensures end == After(log, partition, Loop(old(consumer.View()), start, start), polls)
    ensures consumer.View() == end.tables
    ensures consumer.offsets == Carried(old(consumer.offsets), partition, start, end.committed)
  {
    var position := start;
    ghost var l := Loop(consumer.View(), start, start);
    end := After(log, partition, l, polls);
    for i := 0 to |polls|
      invariant start <= l.committed <= l.position == position <= |log| && l.tables == consumer.View()
      invariant consumer.offsets == Carried(old(consumer.offsets), partition, start, l.committed)
      invariant After(log, partition, l, polls[i..]) == end
    {
      assert polls[i..][0] == polls[i] && polls[i..][1..] == polls[i + 1..];
      position := PollOnce(consumer, log, partition, position, polls[i], l);
      l := Next(log, partition, l, polls[i]);
    }
  }

  /** The loop starts where its group stands in the partition: at the committed offset, or at the start of the log if
      it has committed none; and that is where the group stands afterwards. */
  method Run(consumer: Consumer, log: seq<Record>, partition: int, start: nat, polls: seq<Poll>)
    requires start <= |log| && start == if partition in consumer.offsets then consumer.offsets[partition] else 0
    modifies consumer
    ensures var end := After(log, partition, Loop(old(consumer.View()), start, start), polls);
      && consumer.View() == end.tables
      && end.committed == (if partition in consumer.offsets then consumer.offsets[partition] else 0)
      && consumer.offsets == Carried(old(consumer.offsets), partition, start, end.committed)
  {
    ghost var end := RunFrom(consumer, log, partition, start, polls);
    CarriedStands(old(consumer.offsets), partition, start, end.committed);
  }

  // ----- what the transactions write -----

  /** The transaction of this record commits, unless the event has been processed before. */
  predicate Effective(d: Delivered, fault: Fault) {
    && ParseRecord(d.record).Ok? && AuditFor(ParseRecord(d.record).value).Ok?
    && fault in {NoFault, CommitAnswerLost, OffsetCommitFails, OffsetAnswerLost}
  }

  predicate HasId(r: Record, id: string) {
    ParseRecord(r).Ok? && ParseRecord(r).value.eventId == id
  }

  ghost predicate Consistent(t: Tables) {
    Consumers.Sources(t.audit) == t.processed.Keys
  }

  /** The records of a batch that are tried and whose transaction commits. */
  function Written(t: Tables, records: seq<Delivered>, faults: Delivered -> Fault): set<Delivered>
    decreases |records|
  {
    if records == [] then {}
    else
      var first := Consumed(t, records[0], faults(records[0]));
      (if Effective(records[0], faults(records[0])) then {records[0]} else {}) +
      (if first.ok then Written(first.tables, records[1..], faults) else {})
  }

  lemma ConsumedIds(t: Tables, d: Delivered, fault: Fault, id: string)
    requires Consistent(t)
    ensures var after := Consumed(t, d, fault).tables;
      && Consistent(after)
      && (id in after.processed <==> id in t.processed || (Effective(d, fault) && HasId(d.record, id)))
  {
    if ParseRecord(d.record).Ok? {
      var event := ParseRecord(d.record).value;
      if AuditFor(event).Ok? {
        Consumers.SourcesAppend(t.audit, AuditFor(event).value);
      }
    }
  }

  /** A batch adds exactly the ids of its written records to the processed table. */
  lemma {:induction false} RunIds(t: Tables, records: seq<Delivered>, faults: Delivered -> Fault, id: string)
    requires Consistent(t)
    ensures var after := PartitionRun(t, records, faults).tables;
      && Consistent(after)
      && (id in after.processed <==>
            id in t.processed || exists d :: d in Written(t, records, faults) && HasId(d.record, id))
    decreases |records|
  {
    if records != [] {
      var d := records[0];
      var first := Consumed(t, d, faults(d));
      ConsumedIds(t, d, faults(d), id);
      if first.ok {
        RunIds(first.tables, records[1..], faults, id);
      }
      assert Effective(d, faults(d)) ==> d in Written(t, records, faults);
    }
  }

  lemma {:induction false} WrittenAmong(t: Tables, records: seq<Delivered>, faults: Delivered -> Fault, d: Delivered)
    requires d in Written(t, records, faults)
    ensures d in records && Effective(d, faults(d))
    decreases |records|
  {
    if d != records[0] || !Effective(d, faults(d)) {
      WrittenAmong(Consumed(t, records[0], faults(records[0])).tables, records[1..], faults, d);
    }
  }

  // ----- the exact condition, for all faults and all duplicates -----

  /** The records that polls have left behind: the first failure of each poll and those fetched after it. */
  function Left(log: seq<Record>, partition: int, l: Loop, polls: seq<Poll>): set<Delivered>
    requires l.position <= |log|
    decreases |polls|
  {
    if polls == [] then {}
    else
      RunDone(l.tables, Batch(log, partition, l, polls[0]), polls[0].faults);
      var batch := Batch(log, partition, l, polls[0]);
      (set d | d in batch[Handled(log, partition, l, polls[0]).done..]) +
      Left(log, partition, Next(log, partition, l, polls[0]), polls[1..])
  }

  function AllWritten(log: seq<Record>, partition: int, l: Loop, polls: seq<Poll>): set<Delivered>
    requires l.position <= |log|
    decreases |polls|
  {
    if polls == [] then {}
    else
      Written(l.tables, Batch(log, partition, l, polls[0]), polls[0].faults) +
      AllWritten(log, partition, Next(log, partition, l, polls[0]), polls[1..])
  }

  lemma {:induction false} AllIds(log: seq<Record>, partition: int, l: Loop, polls: seq<Poll>, id: string)
    requires l.position <= |log| && Consistent(l.tables)
    ensures var end := After(log, partition, l, polls);
      id in end.tables.processed <==>
        id in l.tables.processed || exists d :: d in AllWritten(log, partition, l, polls) && HasId(d.record, id)
    decreases |polls|
  {
    if polls != [] {
      RunIds(l.tables, Batch(log, partition, l, polls[0]), polls[0].faults, id);
      AllIds(log, partition, Next(log, partition, l, polls[0]), polls[1..], id);
    }
  }

  lemma {:induction false} ProcessedStays(log: seq<Record>, partition: int, l: Loop, polls: seq<Poll>, id: string)
    requires l.position <= |log| && id in l.tables.processed
    ensures id in After(log, partition, l, polls).tables.processed
    decreases |polls|
  {
    if polls != [] {
      RunProcesses(l.tables, Batch(log, partition, l, polls[0]), polls[0].faults);
      ProcessedStays(log, partition, Next(log, partition, l, polls[0]), polls[1..], id);
    }
  }

  lemma BatchProcessedOrLeft(log: seq<Record>, partition: int, l: Loop, poll: Poll, i: nat)
    requires l.position <= |log| && l.position <= i < Next(log, partition, l, poll).position
    ensures var run := Handled(log, partition, l, poll);
      && run.done <= |Batch(log, partition, l, poll)|
      && (IsProcessed(Next(log, partition, l, poll).tables, log[i]) ||
          Delivered(log[i], partition, i) in Batch(log, partition, l, poll)[run.done..])
  {
    var batch, run := Batch(log, partition, l, poll), Handled(log, partition, l, poll);
    RunProcesses(l.tables, batch, poll.faults);
    var k := i - l.position;
    assert batch[k] == Delivered(log[i], partition, i);
    if k >= run.done {
      assert batch[run.done..][k - run.done] == batch[k];
    }
  }

  /** Every fetched record has been processed or was left behind. */
  lemma {:induction false} ProcessedOrLeft(log: seq<Record>, partition: int, l: Loop, polls: seq<Poll>, i: nat)
    requires l.position <= |log| && l.position <= i < After(log, partition, l, polls).position
    ensures IsProcessed(After(log, partition, l, polls).tables, log[i]) ||
            Delivered(log[i], partition, i) in Left(log, partition, l, polls)
    decreases |polls|
  {
    if polls != [] {
      var next := Next(log, partition, l, polls[0]);
      if i >= next.position {
        ProcessedOrLeft(log, partition, next, polls[1..], i);
      } else {
        BatchProcessedOrLeft(log, partition, l, polls[0], i);
        if IsProcessed(next.tables, log[i]) {
          ProcessedStays(log, partition, next, polls[1..], ParseRecord(log[i]).value.eventId);
        }
      }
    }
  }

  lemma {:induction false} LeftOffsets(log: seq<Record>, partition: int, l: Loop, polls: seq<Poll>, d: Delivered)
    requires l.position <= |log| && d in Left(log, partition, l, polls)
    ensures l.position <= d.offset < |log| && d.record == log[d.offset]
    decreases |polls|
  {
    var batch := Batch(log, partition, l, polls[0]);
    RunDone(l.tables, batch, polls[0].faults);
    if d in batch[Handled(log, partition, l, polls[0]).done..] {
      BatchAt(log, partition, l, polls[0], d);
    } else {
      LeftOffsets(log, partition, Next(log, partition, l, polls[0]), polls[1..], d);
    }
  }

  /** A record left behind got into the processed table all the same: its event was there before, or some
      transaction, its own or that of another record of the same event, did commit. */
  ghost predicate Rescued(log: seq<Record>, partition: int, l: Loop, polls: seq<Poll>, d: Delivered)
    requires l.position <= |log|
  {
    && ParseRecord(d.record).Ok?
    && var id := ParseRecord(d.record).value.eventId;
       id in l.tables.processed || exists e :: e in AllWritten(log, partition, l, polls) && HasId(e.record, id)
  }

  /** After any number of polls of one process, failing anywhere, the committed offset covers every lower record
      exactly when each record left behind below it was rescued. */
  lemma LoopCoversIff(log: seq<Record>, partition: int, l: Loop, polls: seq<Poll>)
    requires Covered(l.tables, log, l.committed) && l.position == l.committed && Consistent(l.tables)
    ensures var end := After(log, partition, l, polls);
      Covered(end.tables, log, end.committed) <==>
        forall d | d in Left(log, partition, l, polls) && d.offset < end.committed :: Rescued(log, partition, l, polls, d)
  {
    var end := After(log, partition, l, polls);
    forall d | d in Left(log, partition, l, polls)
      ensures 0 <= d.offset < |log|
      ensures IsProcessed(end.tables, log[d.offset]) <==> Rescued(log, partition, l, polls, d)
    {
      LeftOffsets(log, partition, l, polls, d);
      if ParseRecord(d.record).Ok? {
        AllIds(log, partition, l, polls, ParseRecord(d.record).value.eventId);
      }
    }
    forall i: nat | i < end.committed
      ensures IsProcessed(end.tables, log[i]) || Delivered(log[i], partition, i) in Left(log, partition, l, polls)
    {
      if i < l.position {
        ProcessedStays(log, partition, l, polls, ParseRecord(log[i]).value.eventId);
      } else {
        ProcessedOrLeft(log, partition, l, polls, i);
      }
    }
  }

  // ----- in terms of the loop's own two numbers -----

  /** Some poll commits an offset while the committed offset is behind the position, that is, behind an
      earlier poll that stopped short. */
  ghost predicate CommitsBehind(log: seq<Record>, partition: int, l: Loop, polls: seq<Poll>)
    requires l.position <= |log|
    decreases |polls|
  {
    && polls != []
    && ((l.committed < l.position && Handled(log, partition, l, polls[0]).done > 0) ||
        CommitsBehind(log, partition, Next(log, partition, l, polls[0]), polls[1..]))
  }

  /** A loop that never commits behind keeps every lower record covered, whatever fails. */
  lemma {:induction false} CoversUnlessBehind(log: seq<Record>, partition: int, l: Loop, polls: seq<Poll>)
    requires Covered(l.tables, log, l.committed) && l.committed <= l.position <= |log|
    requires !CommitsBehind(log, partition, l, polls)
    ensures var end := After(log, partition, l, polls); Covered(end.tables, log, end.committed)
    decreases |polls|
  {
    if polls != [] {
      PollCoversIff(l.tables, log, partition, l.committed, l.position, Batch(log, partition, l, polls[0]), polls[0].faults);
      CoversUnlessBehind(log, partition, Next(log, partition, l, polls[0]), polls[1..]);
    }
  }

  /** No two records of the partition are of one event. */
  ghost predicate Distinct(log: seq<Record>) {
    forall i, j | 0 <= i < j < |log| && ParseRecord(log[i]).Ok? && ParseRecord(log[j]).Ok? ::
      ParseRecord(log[i]).value.eventId != ParseRecord(log[j]).value.eventId
  }

  lemma SameEvent(log: seq<Record>, i: nat, j: nat)
    requires Distinct(log) && i < |log| && j < |log|
    requires ParseRecord(log[i]).Ok? && ParseRecord(log[j]).Ok?
    requires ParseRecord(log[i]).value.eventId == ParseRecord(log[j]).value.eventId
    ensures i == j
  {
  }

  /** A record that fails leaves no trace: no commit takes effect without its offset being committed. */
  ghost predicate Clean(faults: Delivered -> Fault) {
    forall d :: faults(d) !in {CommitAnswerLost, OffsetCommitFails}
  }

  lemma CleanEffective(t: Tables, d: Delivered, fault: Fault)
    requires Consistent(t) && Effective(d, fault) && fault !in {CommitAnswerLost, OffsetCommitFails}
    ensures Consumed(t, d, fault).kept
  {
  }

  /** Every written record is among the successful ones. */
  lemma {:induction false} CleanWritten(t: Tables, records: seq<Delivered>, faults: Delivered -> Fault, d: Delivered)
    returns (i: nat)
    requires Consistent(t) && Clean(faults) && d in Written(t, records, faults)
    ensures i < PartitionRun(t, records, faults).done <= |records| && records[i] == d
    decreases |records|
  {
    var first := Consumed(t, records[0], faults(records[0]));
    RunDone(t, records, faults);
    if d == records[0] {
      WrittenAmong(t, records, faults, d);
      CleanEffective(t, d, faults(d));
      i := 0;
    } else {
      ConsumedIds(t, records[0], faults(records[0]), "");
      var k := CleanWritten(first.tables, records[1..], faults, d);
      i := k + 1;
    }
  }

  /** With distinct events, a record is processed only by a transaction of its own. */
  lemma PollProcesses(log: seq<Record>, partition: int, l: Loop, poll: Poll, j: nat)
    requires Distinct(log) && Consistent(l.tables) && l.position <= |log| && j < |log|
    requires !IsProcessed(l.tables, log[j]) && IsProcessed(Next(log, partition, l, poll).tables, log[j])
    ensures Delivered(log[j], partition, j) in Written(l.tables, Batch(log, partition, l, poll), poll.faults)
    ensures l.position <= j < Next(log, partition, l, poll).position
  {
    var batch := Batch(log, partition, l, poll);
    var id := ParseRecord(log[j]).value.eventId;
    RunIds(l.tables, batch, poll.faults, id);
    var d :| d in Written(l.tables, batch, poll.faults) && HasId(d.record, id);
    WrittenAmong(l.tables, batch, poll.faults, d);
    BatchAt(log, partition, l, poll, d);
    SameEvent(log, d.offset, j);
  }

  lemma NextConsistent(log: seq<Record>, partition: int, l: Loop, poll: Poll)
    requires Consistent(l.tables) && l.position <= |log|
    ensures Consistent(Next(log, partition, l, poll).tables)
  {
    RunIds(l.tables, Batch(log, partition, l, poll), poll.faults, "");
  }

  /** What the position has passed unprocessed stays unprocessed. */
  lemma {:induction false} NeverReturns(log: seq<Record>, partition: int, l: Loop, polls: seq<Poll>, j: nat)
    requires Distinct(log) && Consistent(l.tables) && j < l.position <= |log|
    requires !IsProcessed(l.tables, log[j])
    ensures !IsProcessed(After(log, partition, l, polls).tables, log[j])
    decreases |polls|
  {
    if polls != [] {
      var next := Next(log, partition, l, polls[0]);
      NextConsistent(log, partition, l, polls[0]);
      if IsProcessed(next.tables, log[j]) {
        PollProcesses(log, partition, l, polls[0], j);
      }
      NeverReturns(log, partition, next, polls[1..], j);
    }
  }

  /** Nothing at or after the committed offset has been processed. */
  ghost predicate Untouched(log: seq<Record>, l: Loop) {
    forall i | l.committed <= i < |log| :: !IsProcessed(l.tables, log[i])
  }

  lemma PollKeepsUntouched(log: seq<Record>, partition: int, l: Loop, poll: Poll)
    requires Distinct(log) && Consistent(l.tables) && l.committed <= l.position <= |log|
    requires Untouched(log, l) && Clean(poll.faults)
    ensures Untouched(log, Next(log, partition, l, poll)) || l.committed < l.position
    ensures Handled(log, partition, l, poll).done == 0 ==> Untouched(log, Next(log, partition, l, poll))
    ensures l.committed < l.position ==> !IsProcessed(Next(log, partition, l, poll).tables, log[l.committed])
  {
    var batch, next := Batch(log, partition, l, poll), Next(log, partition, l, poll);
    RunDone(l.tables, batch, poll.faults);
    var done := Handled(log, partition, l, poll).done;
    forall j | l.committed <= j < |log| && IsProcessed(next.tables, log[j])
      ensures l.position <= j < l.position + done
    {
      PollProcesses(log, partition, l, poll, j);
      var i := CleanWritten(l.tables, batch, poll.faults, Delivered(log[j], partition, j));
    }
  }

  lemma {:induction false} BehindUncovers(log: seq<Record>, partition: int, l: Loop, polls: seq<Poll>)
    requires Distinct(log) && Consistent(l.tables) && l.committed <= l.position <= |log|
    requires Untouched(log, l) && forall poll | poll in polls :: Clean(poll.faults)
    requires CommitsBehind(log, partition, l, polls)
    ensures var end := After(log, partition, l, polls); !Covered(end.tables, log, end.committed)
    decreases |polls|
  {
    var poll, next := polls[0], Next(log, partition, l, polls[0]);
    assert poll in polls;
    PollKeepsUntouched(log, partition, l, poll);
    NextConsistent(log, partition, l, poll);
    if l.committed < l.position && Handled(log, partition, l, poll).done > 0 {
      NeverReturns(log, partition, next, polls[1..], l.committed);
    } else {
      BehindUncovers(log, partition, next, polls[1..]);
    }
  }

  /** With distinct events and failures that leave no trace, a process covers every record below the offset it
      has committed exactly when none of its polls committed behind an earlier one that stopped short. */
  lemma CoversIffNeverBehind(log: seq<Record>, partition: int, l: Loop, polls: seq<Poll>)
    requires Covered(l.tables, log, l.committed) && l.position == l.committed && Consistent(l.tables)
    requires Distinct(log) && Untouched(log, l) && forall poll | poll in polls :: Clean(poll.faults)
    ensures var end := After(log, partition, l, polls);
      Covered(end.tables, log, end.committed) <==> !CommitsBehind(log, partition, l, polls)
  {
    if CommitsBehind(log, partition, l, polls) {
      BehindUncovers(log, partition, l, polls);
    } else {
      CoversUnlessBehind(log, partition, l, polls);
    }
  }
}
