/** What the consumer's loop does with one partition of a poll, as moves of the consumer group. */
module GroupLoop {
  import opened EventFormat
  import opened Pipeline
  import opened ConsumerGroup
  import opened KafkaConsumer
  import Consumers

  /** The group shows these tables, and the consumer's next offset of the partition is from. */
  ghost predicate Stands(t: Tables, g: Group, seat: Seat, from: nat) {
    Mirrors(t, g.system.read) && seat in g.positions && g.positions[seat] == from
  }

  /** The offsets and the producing half have not been touched. */
  ghost predicate OnlyTx(g: Group, h: Group) {
    h.system.made == g.system.made && h.committed == g.committed && h.positions == g.positions
  }

  lemma Worked(cfg: Config, place: Placement, g: Group, m: Group, a: Consumers.Action) returns (h: Group)
    requires Leads(cfg, place, g, m) && !a.Take?
    requires Consumers.Enabled(true, m.system.made.log, m.system.read, a)
    ensures Leads(cfg, place, g, h) && OnlyTx(m, h)
    ensures h.system.read == Consumers.Apply(true, m.system.made.log, m.system.read, a)
    ensures h.hands == HandsAfter(m.hands, m.system.read, a)
  {
    h := LeadsMove(cfg, place, g, m, Work(a));
  }

  /** A consumer has its record in hand, its transaction being open with no other beside it. */
  ghost predicate Alone(t: Tables, m: Group, c: int, p: int, tx: Consumers.Tx) {
    && m.system.read.processed == t.processed.Keys && m.system.read.audit == t.audit
    && Consumers.TxOf(m.system.read, c) == tx && (forall b | b in m.system.read.txs && b != c :: m.system.read.txs[b].Idle?)
    && c in m.hands && m.hands[c] == Hand(p, false)
  }

  lemma Recording(cfg: Config, place: Placement, g: Group, m: Group, t: Tables, d: Delivered, seat: Seat,
                  event: ConsumedEvent)
    returns (h: Group)
    requires Leads(cfg, place, g, m) && Alone(t, m, seat.consumer, seat.partition, Consumers.Handling(event))
    requires AuditFor(event).Ok? && event.eventId !in t.processed
    requires AuditFor(event).value.sourceEventId !in Consumers.Sources(t.audit)
    ensures Leads(cfg, place, g, h) && OnlyTx(m, h)
    ensures Mirrors(Recorded(t, d, event, AuditFor(event).value), h.system.read)
    ensures seat.consumer in h.hands && h.hands[seat.consumer] == Hand(seat.partition, true)
  {
    h := Worked(cfg, place, g, m, Consumers.Insert(seat.consumer));
    h := Worked(cfg, place, g, h, Consumers.MarkDone(seat.consumer));
    h := Worked(cfg, place, g, h, Consumers.Commit(seat.consumer));
  }

  /** After the dedupe read: the tables are those of the transaction, and a success has its record in hand as done. */
  lemma HandledByGroup(cfg: Config, place: Placement, g: Group, m: Group, t: Tables, d: Delivered, seat: Seat,
                       event: ConsumedEvent, fault: Fault) returns (h: Group)
    requires Leads(cfg, place, g, m) && Alone(t, m, seat.consumer, seat.partition, Consumers.Handling(event))
    requires event.eventId !in t.processed && fault !in {BeginFails, ReadFails}
    ensures Leads(cfg, place, g, h) && OnlyTx(m, h) && Mirrors(TxRun(t, d, event, fault).tables, h.system.read)
    ensures TxRun(t, d, event, fault).ok ==>
              seat.consumer in h.hands && h.hands[seat.consumer] == Hand(seat.partition, true)
  {
    if AuditFor(event).Err? || AuditFor(event).value.sourceEventId in Consumers.Sources(t.audit) {
      h := Worked(cfg, place, g, m, Consumers.Insert(seat.consumer));
    } else if fault in {InsertFails, MarkFails, CommitFails} {
      h := Worked(cfg, place, g, m, Consumers.Abort(seat.consumer));
    } else {
      h := Recording(cfg, place, g, m, t, d, seat, event);
    }
  }

  lemma TxByGroup(cfg: Config, place: Placement, g: Group, m: Group, t: Tables, d: Delivered, seat: Seat,
                  event: ConsumedEvent, fault: Fault) returns (h: Group)
    requires Leads(cfg, place, g, m) && Alone(t, m, seat.consumer, seat.partition, Consumers.Reading(event))
    ensures Leads(cfg, place, g, h) && OnlyTx(m, h) && Mirrors(TxRun(t, d, event, fault).tables, h.system.read)
    ensures TxRun(t, d, event, fault).ok ==>
              seat.consumer in h.hands && h.hands[seat.consumer] == Hand(seat.partition, true)
  {
    if fault in {BeginFails, ReadFails} {
      h := Worked(cfg, place, g, m, Consumers.Abort(seat.consumer));
    } else {
      h := Worked(cfg, place, g, m, Consumers.Read(seat.consumer));
      if event.eventId !in t.processed {
        h := HandledByGroup(cfg, place, g, h, t, d, seat, event, fault);
      }
    }
  }

  /** The record is the next one of the partition, at this index of the log. */
  ghost predicate ComesNext(place: Placement, log: seq<Record>, seat: Seat, from: nat, d: Delivered, i: nat) {
    i < |log| && log[i] == d.record && IsNext(place, seat.partition, from, i)
  }

  /** One record, whichever call fails: delivered unless it does not parse, and its offset committed if the loop
      commits it. */
  lemma RecordIsMoves(cfg: Config, place: Placement, g: Group, t: Tables, seat: Seat, from: nat, d: Delivered, i: nat,
                      fault: Fault) returns (h: Group)
    requires Stands(t, g, seat, from) && ComesNext(place, g.system.made.log, seat, from, d, i)
    ensures Leads(cfg, place, g, h) && h.system.made == g.system.made
    ensures var c := Consumed(t, d, fault);
      && Stands(c.tables, h, seat, if ParseRecord(d.record).Ok? then i + 1 else from)
      && h.positions == g.positions[seat := h.positions[seat]]
      && h.committed == if c.kept then g.committed[seat.partition := i + 1] else g.committed
  {
    GroupStays(cfg, place, g);
    h := g;
    if ParseRecord(d.record).Ok? {
      var taken := LeadsDeliver(cfg, place, g, g, seat, i);
      h := TxByGroup(cfg, place, g, taken, t, d, seat, ParseRecord(d.record).value, fault);
      if Consumed(t, d, fault).kept {
        assert Seat(seat.consumer, seat.partition) == seat;
        h := LeadsMove(cfg, place, g, h, CommitOffset(seat.consumer));
      }
    }
  }

  /** The records of a batch stand one after the other in the partition. */
  ghost predicate Consecutive(place: Placement, log: seq<Record>, seat: Seat, from: nat, records: seq<Delivered>,
                              index: Delivered -> nat, end: nat)
    decreases |records|
  {
    if records == [] then from <= end <= |log|
    else ComesNext(place, log, seat, from, records[0], index(records[0])) && from <= end &&
         Consecutive(place, log, seat, index(records[0]) + 1, records[1..], index, end)
  }

  lemma {:induction false} ConsecutiveBounds(place: Placement, log: seq<Record>, seat: Seat, from: nat,
                                             records: seq<Delivered>, index: Delivered -> nat, end: nat)
    requires Consecutive(place, log, seat, from, records, index, end)
    ensures from <= end <= |log|
    decreases |records|
  {
    if records != [] {
      ConsecutiveBounds(place, log, seat, index(records[0]) + 1, records[1..], index, end);
    }
  }

  /** The rest of a batch is passed over, and the position is behind the whole batch. */
  lemma Passes(cfg: Config, place: Placement, g: Group, m: Group, t: Tables, seat: Seat, from: nat, end: nat)
    returns (h: Group)
    requires Leads(cfg, place, g, m) && Stands(t, m, seat, from) && from <= end <= |m.system.made.log|
    ensures Leads(cfg, place, g, h) && Stands(t, h, seat, end) && h.system == m.system && h.committed == m.committed
    ensures h.positions == m.positions[seat := end]
  {
    assert Seat(seat.consumer, seat.partition) == seat;
    h := LeadsMove(cfg, place, g, m, Skip(seat.consumer, seat.partition, end));
  }

  /** The offset behind the last of the first done records, if there are any. */
  function OffsetsOver(committed: map<int, nat>, p: int, records: seq<Delivered>, index: Delivered -> nat, done: nat)
    : map<int, nat>
    requires done <= |records|
  {
    if done == 0 then committed else committed[p := index(records[done - 1]) + 1]
  }

  /** The group after a batch: the tables and offsets of the loop, and the position behind the batch. */
  ghost predicate Arrived(run: Progress, g: Group, h: Group, seat: Seat, records: seq<Delivered>, index: Delivered -> nat,
                          end: nat)
  {
    && h.system.made == g.system.made && run.done <= |records|
    && Stands(run.tables, h, seat, end) && h.positions == g.positions[seat := end]
    && h.committed == OffsetsOver(g.committed, seat.partition, records, index, run.done)
  }

  lemma ArrivedWithFirst(run: Progress, g: Group, next: Group, h: Group, seat: Seat, records: seq<Delivered>,
                         index: Delivered -> nat, end: nat)
    requires records != [] && Arrived(run, next, h, seat, records[1..], index, end)
    requires seat in g.positions && seat in next.positions
    requires next.system.made == g.system.made && next.positions == g.positions[seat := next.positions[seat]]
    requires next.committed == g.committed[seat.partition := index(records[0]) + 1]
    ensures Arrived(Progress(run.tables, run.done + 1), g, h, seat, records, index, end)
  {
    if run.done > 0 {
      assert records[1..][run.done - 1] == records[run.done];
    }
  }

  /** The batch ends with its first record, whose offset may have been committed. */
  lemma EndsWithFirst(cfg: Config, place: Placement, g: Group, next: Group, first: Consumption, seat: Seat,
                      records: seq<Delivered>, index: Delivered -> nat, end: nat) returns (h: Group)
    requires Leads(cfg, place, g, next) && records != []
    requires seat in g.positions && seat in next.positions && Mirrors(first.tables, next.system.read)
    requires next.system.made == g.system.made && next.positions == g.positions[seat := next.positions[seat]]
    requires next.positions[seat] <= end <= |g.system.made.log|
    requires next.committed == if first.kept then g.committed[seat.partition := index(records[0]) + 1] else g.committed
    ensures Leads(cfg, place, g, h)
    ensures Arrived(Progress(first.tables, if first.kept then 1 else 0), g, h, seat, records, index, end)
  {
    h := Passes(cfg, place, g, next, first.tables, seat, next.positions[seat], end);
  }

  /** The first record of a batch. */
  lemma FirstIsMoves(cfg: Config, place: Placement, g: Group, t: Tables, seat: Seat, from: nat, records: seq<Delivered>,
                     index: Delivered -> nat, end: nat, fault: Fault) returns (next: Group)
    requires Stands(t, g, seat, from) && records != []
    requires Consecutive(place, g.system.made.log, seat, from, records, index, end)
    ensures Leads(cfg, place, g, next) && next.system.made == g.system.made
    ensures seat in next.positions && next.positions == g.positions[seat := next.positions[seat]]
    ensures next.positions[seat] <= end <= |g.system.made.log|
    ensures var first := Consumed(t, records[0], fault);
      && Mirrors(first.tables, next.system.read)
      && next.committed == (if first.kept then g.committed[seat.partition := index(records[0]) + 1] else g.committed)
      && (first.ok ==> Stands(first.tables, next, seat, index(records[0]) + 1))
  {
    ConsecutiveBounds(place, g.system.made.log, seat, index(records[0]) + 1, records[1..], index, end);
    next := RecordIsMoves(cfg, place, g, t, seat, from, records[0], index(records[0]), fault);
  }

  /** One partition of a poll is a run of the group: the tables are those of the loop, the offset committed is the one
      behind the last record the loop commits, and the position is behind the batch, whatever failed in it. */
  lemma {:induction false} PartitionIsMoves(cfg: Config, place: Placement, g: Group, t: Tables, seat: Seat, from: nat,
                                            records: seq<Delivered>, index: Delivered -> nat, end: nat,
                                            faults: Delivered -> Fault) returns (h: Group)
    requires Stands(t, g, seat, from) && Consecutive(place, g.system.made.log, seat, from, records, index, end)
    ensures Leads(cfg, place, g, h) && Arrived(PartitionRun(t, records, faults), g, h, seat, records, index, end)
    decreases |records|
  {
    if records == [] {
      GroupStays(cfg, place, g);
      h := Passes(cfg, place, g, g, t, seat, from, end);
      assert Arrived(Progress(t, 0), g, h, seat, records, index, end);
    } else {
      var first := Consumed(t, records[0], faults(records[0]));
      var next := FirstIsMoves(cfg, place, g, t, seat, from, records, index, end, faults(records[0]));
      if first.ok {
        h := PartitionIsMoves(cfg, place, next, first.tables, seat, index(records[0]) + 1, records[1..], index, end, faults);
        LeadsOn(cfg, place, g, next, h);
        ArrivedWithFirst(PartitionRun(first.tables, records[1..], faults), g, next, h, seat, records, index, end);
      } else {
        h := EndsWithFirst(cfg, place, g, next, first, seat, records, index, end);
      }
    }
  }
}
