/**
  From where a run of producers and a consumer group can settle: with every row published, every record consumed,
  and every user audited. The continuation lets open work finish, publishes what is left in whole batches, and reads
  every partition on from where it can be read.
 */
module Settling {
  import opened Wrappers
  import opened EventFormat
  import opened OutboxTable
  import opened Pipeline
  import opened PipelineInvariants
  import opened EndToEnd
  import opened Collections
  import opened ConsumerGroup
  import opened Stranded
  import Finishing
  import Consumers
  import Decimal

  ghost predicate NoneStranded(place: Placement, g: Group) {
    forall id | id in g.system.made.rows :: !IsStranded(place, g, id)
  }

  ghost predicate HasCopy(place: Placement, g: Group, id: int)
    requires id in g.system.made.rows
  {
    exists i :: CopyInReach(place, g, RecordFor(g.system.made.rows[id]), i)
  }

  /** The group after some continuation that leaves its offsets alone and loses no record. */
  ghost predicate SameOffsets(g: Group, h: Group) {
    h.committed == g.committed && h.positions == g.positions && g.system.made.log <= h.system.made.log
  }

  lemma CopyStays(place: Placement, g: Group, h: Group, r: Record, i: nat)
    requires SameOffsets(g, h) && CopyInReach(place, g, r, i)
    ensures CopyInReach(place, h, r, i)
  {
  }

  /** Every record from the end of the log on is in reach of a consumer that joins. */
  lemma NewCopy(place: Placement, g: Group, h: Group, e: Event) returns (i: nat)
    requires OffsetsOk(g) && SameOffsets(g, h)
    requires Finishing.LoggedSince(h.system.made, e, |g.system.made.log|)
    ensures CopyInReach(place, h, RecordFor(e), i)
  {
    i :| |g.system.made.log| <= i < |h.system.made.log| && h.system.made.log[i] == RecordFor(e);
    assert CommittedOf(h, place(i)) <= |g.system.made.log|;
  }

  // ----- open work finishes, and the rest is published -----

  /** Every row is published and has been processed or can be read, and no transaction is open. */
  ghost predicate ReadyToRead(place: Placement, g: Group) {
    && (forall id | id in g.system.made.rows :: g.system.made.rows[id].status.Processed?)
    && (forall c | c in g.system.read.txs :: g.system.read.txs[c].Idle?)
    && forall id | id in g.system.made.rows :: IsDone(g, id) || HasCopy(place, g, id)
  }

  /** What a live worker still owed has a copy in reach once the workers have published what they owed. */
  lemma OwedHasCopy(place: Placement, g: Group, h: Group, id: int)
    requires OffsetsOk(g) && SameOffsets(g, h) && HoldInv(g.system.made) && id in g.system.made.rows
    requires Finishing.OnlyPublished(g.system.made, h.system.made) && StillOwed(g, id)
    requires forall w, j | w in g.system.made.workers && Live(g.system.made, w) && Finishing.Due(g.system.made.workers[w], j) ::
               Finishing.LoggedSince(h.system.made, g.system.made.workers[w].batch[j], |g.system.made.log|)
    ensures HasCopy(place, h, id)
  {
    var w :| w in g.system.made.workers && Live(g.system.made, w) && Owes(g.system.made.workers[w], id);
    var worker := g.system.made.workers[w];
    var j :| 0 <= j < |worker.batch| && worker.batch[j].id == id && (j > 0 || worker.phase.Ready?);
    assert HoldsOk(g.system.made.rows, g.system.made.log, worker) && worker.batch[j] in worker.batch;
    assert Finishing.Due(worker, j);
    var i := NewCopy(place, g, h, worker.batch[j]);
    assert RecordFor(worker.batch[j]) == RecordFor(h.system.made.rows[id]);
  }

  /** A published row that is not stranded is in the end processed or in reach, once open work has finished. */
  lemma FinishedIsReadable(place: Placement, g: Group, h: Group, id: int)
    requires OffsetsOk(g) && SameOffsets(g, h) && HoldInv(g.system.made) && id in g.system.made.rows
    requires Finishing.OnlyPublished(g.system.made, h.system.made)
    requires forall w, j | w in g.system.made.workers && Live(g.system.made, w) && Finishing.Due(g.system.made.workers[w], j) ::
               Finishing.LoggedSince(h.system.made, g.system.made.workers[w].batch[j], |g.system.made.log|)
    requires g.system.read.processed <= h.system.read.processed
    requires forall c | Finishing.IsOpen(g.system.read, c) :: g.system.read.txs[c].event.eventId in h.system.read.processed
    requires CanBeRead(place, g, id)
    ensures IsDone(h, id) || HasCopy(place, h, id)
  {
    var r := RecordFor(g.system.made.rows[id]);
    if i :| CopyInReach(place, g, r, i) {
      CopyStays(place, g, h, r, i);
    } else if InHand(g, id) {
      var c :| c in g.system.read.txs && !g.system.read.txs[c].Idle? &&
               g.system.read.txs[c].event.eventId == Decimal.FormatInt(id);
      assert Finishing.IsOpen(g.system.read, c);
    } else if StillOwed(g, id) {
      OwedHasCopy(place, g, h, id);
    }
  }

  /** Live workers publish what they owe, and then open transactions finish. */
  lemma WorkFinishes(cfg: Config, place: Placement, g: Group) returns (h: Group)
    requires ValidConfig(cfg) && GroupInv(cfg, g) && NoneStranded(place, g)
    ensures Leads(cfg, place, g, h) && h.system.made.rows == g.system.made.rows
    ensures forall c | c in h.system.read.txs :: h.system.read.txs[c].Idle?
    ensures forall id | id in h.system.made.rows ::
              && !h.system.made.rows[id].status.Failed?
              && (h.system.made.rows[id].status.Processed? ==> IsDone(h, id) || HasCopy(place, h, id))
  {
    var s := Finishing.AllOwedPublished(cfg, g.system.made);
    var owed := g.(system := System(s, g.system.read));
    LeadsMakes(cfg, place, g, s);
    LeadsKeepsInv(cfg, place, g, owed);
    Finishing.RecordsHandled(s);
    var k := Finishing.AllFinished(s.log, g.system.read);
    h := LeadsWorks(cfg, place, owed, k);
    LeadsOn(cfg, place, g, owed, h);
    forall id | id in h.system.made.rows
      ensures !h.system.made.rows[id].status.Failed?
      ensures h.system.made.rows[id].status.Processed? ==> IsDone(h, id) || HasCopy(place, h, id)
    {
      assert !IsStranded(place, g, id);
      if g.system.made.rows[id].status.Processed? {
        FinishedIsReadable(place, g, h, id);
      }
    }
  }

  /** The rest is published, and nothing gets out of reach. */
  lemma AllPublished(cfg: Config, place: Placement, g: Group) returns (h: Group)
    requires ValidConfig(cfg) && GroupInv(cfg, g)
    requires forall c | c in g.system.read.txs :: g.system.read.txs[c].Idle?
    requires forall id | id in g.system.made.rows ::
               && !g.system.made.rows[id].status.Failed?
               && (g.system.made.rows[id].status.Processed? ==> IsDone(g, id) || HasCopy(place, g, id))
    ensures Leads(cfg, place, g, h) && ReadyToRead(place, h)
  {
    var s := Finishing.AllPublished(cfg, g.system.made);
    h := g.(system := System(s, g.system.read));
    LeadsMakes(cfg, place, g, s);
    forall id | id in s.rows
      ensures s.rows[id].status.Processed? && (IsDone(h, id) || HasCopy(place, h, id))
    {
      assert id !in Finishing.Unpublished(s);
      if !g.system.made.rows[id].status.Processed? {
        var i := NewCopy(place, g, h, s.rows[id]);
      } else if i :| CopyInReach(place, g, RecordFor(g.system.made.rows[id]), i) {
        CopyStays(place, g, h, RecordFor(g.system.made.rows[id]), i);
      }
    }
  }

  // ----- reading what is left -----

  /** The first record of the partition from an offset on, if the one at i is of that partition. */
  lemma {:induction false} NextRecord(place: Placement, p: int, offset: nat, i: nat) returns (j: nat)
    requires offset <= i && place(i) == p
    ensures IsNext(place, p, offset, j) && j <= i
    decreases i - offset
  {
    if place(offset) == p {
      j := offset;
    } else {
      j := NextRecord(place, p, offset + 1, i);
    }
  }

  /** A transaction that has just begun succeeds. */
  lemma TakenSucceeds(cfg: Config, place: Placement, g: Group, m: Group, c: int) returns (h: Group)
    requires ValidConfig(cfg) && Leads(cfg, place, g, m) && Consumers.Inv(m.system.made.log, m.system.read)
    requires LogInv(m.system.made) && BornInv(m.system.made) && Finishing.IsOpen(m.system.read, c)
    requires forall d | d in m.system.read.txs && d != c :: m.system.read.txs[d].Idle?
    requires !Consumers.Pending(m.system.read.txs[c])
    ensures Leads(cfg, place, g, h) && h.system.made == m.system.made
    ensures forall d | d in h.system.read.txs :: h.system.read.txs[d].Idle?
    ensures h.committed == m.committed && h.positions == m.positions
    ensures m.system.read.processed <= h.system.read.processed
    ensures m.system.read.txs[c].event.eventId in h.system.read.processed
  {
    Finishing.RecordsHandled(m.system.made);
    Consumers.Stays(m.system.made.log, m.system.read);
    var k := Finishing.TxFinishes(m.system.made.log, m.system.read, m.system.read, c);
    h := LeadsWorks(cfg, place, m, k);
    LeadsOn(cfg, place, g, m, h);
  }

  /** A consumer reads its next record, and its transaction succeeds. */
  lemma NextRead(cfg: Config, place: Placement, g: Group, seat: Seat, j: nat) returns (h: Group)
    requires ValidConfig(cfg) && SystemInv(cfg, g.system) && ReadyToRead(place, g) && j < |g.system.made.log|
    requires seat in g.positions && IsNext(place, seat.partition, g.positions[seat], j)
    ensures Leads(cfg, place, g, h) && h.system.made == g.system.made
    ensures forall d | d in h.system.read.txs :: h.system.read.txs[d].Idle?
    ensures h.committed == g.committed && h.positions == g.positions[seat := j + 1]
    ensures g.system.read.processed <= h.system.read.processed
    ensures ParseRecord(g.system.made.log[j]).Ok?
    ensures ParseRecord(g.system.made.log[j]).value.eventId in h.system.read.processed
  {
    Finishing.RecordsHandled(g.system.made);
    assert g.system.made.log[j] in g.system.made.log;
    GroupStays(cfg, place, g);
    var taken := LeadsDeliver(cfg, place, g, g, seat, j);
    Consumers.StepKeepsInv(g.system.made.log, g.system.read, Consumers.Take(seat.consumer, j));
    h := TakenSucceeds(cfg, place, g, taken, seat.consumer);
  }

  /** The position moves past records that are processed now, so what was in reach is processed or still is. */
  lemma ReadingLosesNone(place: Placement, g: Group, h: Group, c: int, p: int, j: nat, id: int)
    requires Seat(c, p) in g.positions && IsNext(place, p, g.positions[Seat(c, p)], j) && j < |g.system.made.log|
    requires h.system.made == g.system.made && h.committed == g.committed
    requires h.positions == g.positions[Seat(c, p) := j + 1] && g.system.read.processed <= h.system.read.processed
    requires ParseRecord(g.system.made.log[j]).Ok?
    requires ParseRecord(g.system.made.log[j]).value.eventId in h.system.read.processed
    requires Keyed(g.system.made.rows) && id in g.system.made.rows && (IsDone(g, id) || HasCopy(place, g, id))
    ensures IsDone(h, id) || HasCopy(place, h, id)
  {
    var e := g.system.made.rows[id];
    if i :| CopyInReach(place, g, RecordFor(e), i) {
      if i == j {
        PublishParseRoundTrip(id, e.body, e.createdAt);
      } else {
        StillInReach(place, g, h, c, p, j, i);
        assert CopyInReach(place, h, RecordFor(e), i);
      }
    }
  }

  lemma StillInReach(place: Placement, g: Group, h: Group, c: int, p: int, j: nat, i: nat)
    requires Seat(c, p) in g.positions && IsNext(place, p, g.positions[Seat(c, p)], j)
    requires h.committed == g.committed && h.positions == g.positions[Seat(c, p) := j + 1]
    requires InReach(place, g, i) && i != j
    ensures InReach(place, h, i)
  {
    if CommittedOf(g, place(i)) > i {
      var seat :| seat in g.positions && seat.partition == place(i) && g.positions[seat] <= i;
      assert seat in h.positions && h.positions[seat] <= i;
    }
  }

  /** Reading keeps what is processed, and the producing half stands still. */
  ghost predicate OnlyRead(g: Group, h: Group) {
    h.system.made == g.system.made && g.system.read.processed <= h.system.read.processed
  }

  /** A consumer reads on until it has passed a record. */
  lemma {:induction false} ReadUpTo(cfg: Config, place: Placement, g: Group, c: int, p: int, i: nat) returns (h: Group)
    requires ValidConfig(cfg) && GroupInv(cfg, g) && ReadyToRead(place, g)
    requires Seat(c, p) in g.positions && g.positions[Seat(c, p)] <= i < |g.system.made.log| && place(i) == p
    ensures Leads(cfg, place, g, h) && ReadyToRead(place, h) && OnlyRead(g, h)
    ensures ParseRecord(g.system.made.log[i]).Ok?
    ensures ParseRecord(g.system.made.log[i]).value.eventId in h.system.read.processed
    decreases i - g.positions[Seat(c, p)]
  {
    var j := NextRecord(place, p, g.positions[Seat(c, p)], i);
    var next := NextRead(cfg, place, g, Seat(c, p), j);
    LeadsKeepsInv(cfg, place, g, next);
    forall id | id in next.system.made.rows
      ensures IsDone(next, id) || HasCopy(place, next, id)
    {
      ReadingLosesNone(place, g, next, c, p, j, id);
    }
    if j == i {
      h := next;
    } else {
      h := ReadUpTo(cfg, place, next, c, p, i);
      LeadsOn(cfg, place, g, next, h);
    }
  }

  lemma {:induction false} FreshNumber(s: set<int>) returns (n: int)
    ensures n !in s && forall x | x in s :: x < n
    decreases |s|
  {
    if s == {} {
      n := 0;
    } else {
      var x := AnyMember(s);
      var m := FreshNumber(s - {x});
      n := if x < m then m else x + 1;
      assert forall y | y in s :: y == x || y in s - {x};
    }
  }

  /** A consumer stands at or before a record in reach, or a new one joins at the committed offset. */
  lemma SeatFor(cfg: Config, place: Placement, g: Group, i: nat) returns (h: Group, c: int)
    requires ValidConfig(cfg) && GroupInv(cfg, g) && ReadyToRead(place, g) && InReach(place, g, i)
    ensures Leads(cfg, place, g, h) && ReadyToRead(place, h) && OnlyRead(g, h)
    ensures Seat(c, place(i)) in h.positions && h.positions[Seat(c, place(i))] <= i
  {
    GroupStays(cfg, place, g);
    if CommittedOf(g, place(i)) <= i {
      c := FreshNumber(set seat | seat in g.positions :: seat.consumer);
      assert Seat(c, place(i)) !in g.positions;
      h := LeadsMove(cfg, place, g, g, Join(c, place(i)));
      forall id | id in h.system.made.rows
        ensures IsDone(h, id) || HasCopy(place, h, id)
      {
        JoiningLosesNone(place, g, h, Seat(c, place(i)), id);
      }
    } else {
      var seat :| seat in g.positions && seat.partition == place(i) && g.positions[seat] <= i;
      c, h := seat.consumer, g;
      assert seat == Seat(c, place(i));
    }
  }

  lemma JoiningLosesNone(place: Placement, g: Group, h: Group, seat: Seat, id: int)
    requires h.system == g.system && h.committed == g.committed && seat !in g.positions && seat in h.positions
    requires h.positions == g.positions[seat := h.positions[seat]]
    requires id in g.system.made.rows && (IsDone(g, id) || HasCopy(place, g, id))
    ensures IsDone(h, id) || HasCopy(place, h, id)
  {
    var r := RecordFor(g.system.made.rows[id]);
    if i :| CopyInReach(place, g, r, i) {
      if CommittedOf(g, place(i)) > i {
        var other :| other in g.positions && other.partition == place(i) && g.positions[other] <= i;
        assert other in h.positions && h.positions[other] <= i;
      }
      assert CopyInReach(place, h, r, i);
    }
  }

  ghost function Unread(g: Group): set<int> {
    set id | id in g.system.made.rows && !IsDone(g, id)
  }

  lemma RowRead(cfg: Config, place: Placement, g: Group, id: int) returns (h: Group)
    requires ValidConfig(cfg) && GroupInv(cfg, g) && ReadyToRead(place, g) && id in Unread(g)
    ensures Leads(cfg, place, g, h) && ReadyToRead(place, h) && OnlyRead(g, h) && IsDone(h, id)
  {
    var e := g.system.made.rows[id];
    var i :| CopyInReach(place, g, RecordFor(e), i);
    var seated, c := SeatFor(cfg, place, g, i);
    LeadsKeepsInv(cfg, place, g, seated);
    h := ReadUpTo(cfg, place, seated, c, place(i), i);
    LeadsOn(cfg, place, g, seated, h);
    PublishParseRoundTrip(id, e.body, e.createdAt);
  }

  lemma LessUnread(g: Group, h: Group, id: int)
    requires OnlyRead(g, h) && id in Unread(g) && IsDone(h, id)
    ensures |Unread(h)| < |Unread(g)|
  {
    assert Unread(h) <= Unread(g) - {id};
    SubsetSize(Unread(h), Unread(g) - {id});
  }

  lemma {:induction false} AllRead(cfg: Config, place: Placement, g: Group) returns (h: Group)
    requires ValidConfig(cfg) && GroupInv(cfg, g) && ReadyToRead(place, g)
    ensures Leads(cfg, place, g, h) && OnlyRead(g, h) && Unread(h) == {}
    decreases |Unread(g)|
  {
    if Unread(g) == {} {
      GroupStays(cfg, place, g);
      h := g;
    } else {
      var id := AnyMember(Unread(g));
      var next := RowRead(cfg, place, g, id);
      LeadsKeepsInv(cfg, place, g, next);
      LessUnread(g, next, id);
      h := AllRead(cfg, place, next);
      LeadsOn(cfg, place, g, next, h);
    }
  }

  // ----- the main result -----

  lemma ReadIsSettled(g: Group)
    requires LogInv(g.system.made) && Keyed(g.system.made.rows) && Unread(g) == {}
    requires forall id | id in g.system.made.rows :: g.system.made.rows[id].status.Processed?
    ensures Settled(g.system)
  {
    var s := g.system.made;
    forall r, event | r in s.log && ParseRecord(r) == Ok(event)
      ensures event.eventId in g.system.read.processed
    {
      var id :| id in s.rows && r == RecordFor(s.rows[id]);
      PublishParseRoundTrip(id, s.rows[id].body, s.rows[id].createdAt);
      assert id !in Unread(g);
    }
  }

  lemma Settles(cfg: Config, place: Placement, g: Group) returns (h: Group)
    requires ValidConfig(cfg) && GroupInv(cfg, g) && NoneStranded(place, g)
    ensures Leads(cfg, place, g, h) && Settled(h.system)
  {
    var quiet := WorkFinishes(cfg, place, g);
    LeadsKeepsInv(cfg, place, g, quiet);
    var published := AllPublished(cfg, place, quiet);
    LeadsKeepsInv(cfg, place, quiet, published);
    h := AllRead(cfg, place, published);
    LeadsKeepsInv(cfg, place, published, h);
    ReadIsSettled(h);
    LeadsOn(cfg, place, g, quiet, published);
    LeadsOn(cfg, place, g, published, h);
  }

  /** A run of producers and a consumer group can still settle exactly while no event is stranded, whatever has
      crashed, expired, been skipped or been lost so far: no row is FAILED, and each row that counts as published has
      been processed, has a copy that some position or the committed offset has not passed, is in the hand of an open
      transaction, or is still owed by a live worker. */
  lemma SettlesIff(cfg: Config, place: Placement, g: Group)
    requires ValidConfig(cfg) && Leads(cfg, place, EMPTY, g)
    ensures (exists h :: Leads(cfg, place, g, h) && Settled(h.system)) <==>
            forall id | id in g.system.made.rows :: !IsStranded(place, g, id)
  {
    ReachedInv(cfg, place, g);
    if NoneStranded(place, g) {
      var h := Settles(cfg, place, g);
    } else {
      var id :| id in g.system.made.rows && IsStranded(place, g, id);
      forall h | Leads(cfg, place, g, h)
        ensures !Settled(h.system)
      {
        StrandedNeverSettles(cfg, place, g, h, id);
      }
    }
  }
}
