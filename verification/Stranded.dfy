/** Which events can no longer be processed, whatever happens next. */
module Stranded {
  import opened Wrappers
  import opened EventFormat
  import opened OutboxTable
  import opened Pipeline
  import opened PipelineInvariants
  import opened EndToEnd
  import opened ConsumerGroup
  import Decimal

  /** Some consumer's position, or the committed offset at which one can join, has not passed this index. */
  ghost predicate InReach(place: Placement, g: Group, i: nat) {
    || CommittedOf(g, place(i)) <= i
    || exists seat | seat in g.positions :: seat.partition == place(i) && g.positions[seat] <= i
  }

  ghost predicate CopyInReach(place: Placement, g: Group, r: Record, i: nat) {
    i < |g.system.made.log| && g.system.made.log[i] == r && InReach(place, g, i)
  }

  predicate IsDone(g: Group, id: int) {
    Decimal.FormatInt(id) in g.system.read.processed
  }

  /** An open transaction has the event. */
  ghost predicate InHand(g: Group, id: int) {
    exists c | c in g.system.read.txs ::
      !g.system.read.txs[c].Idle? && g.system.read.txs[c].event.eventId == Decimal.FormatInt(id)
  }

  /** A worker whose context has not expired has yet to publish the event. */
  ghost predicate StillOwed(g: Group, id: int) {
    exists w | w in g.system.made.workers :: Live(g.system.made, w) && Owes(g.system.made.workers[w], id)
  }

  ghost predicate CanBeRead(place: Placement, g: Group, id: int)
    requires id in g.system.made.rows
  {
    || IsDone(g, id)
    || (exists i :: CopyInReach(place, g, RecordFor(g.system.made.rows[id]), i))
    || InHand(g, id)
    || StillOwed(g, id)
  }

  /** The row is given up, or it counts as published and no copy of it will ever be read. */
  ghost predicate IsStranded(place: Placement, g: Group, id: int) {
    && id in g.system.made.rows
    && (g.system.made.rows[id].status.Failed? ||
        (g.system.made.rows[id].status.Processed? && !CanBeRead(place, g, id)))
  }

  // ----- a stranded event stays stranded -----

  /** No offset is moved back behind a record that every position and the committed offset have passed. */
  lemma ReachNeverGrows(cfg: Config, place: Placement, g: Group, m: Move, i: nat)
    requires CanMove(cfg, place, g, m) && !InReach(place, g, i)
    ensures !InReach(place, Moved(cfg, place, g, m), i)
  {
    var h := Moved(cfg, place, g, m);
    forall seat | seat in h.positions && seat.partition == place(i)
      ensures h.positions[seat] > i
    {
      if seat in g.positions && h.positions[seat] == g.positions[seat] {
        assert g.positions[seat] > i;
      }
    }
  }

  /** The records of one event are the copies of its row. */
  lemma RecordOfRow(s: State, r: Record, id: int)
    requires LogInv(s) && HoldInv(s) && r in s.log && id in s.rows
    requires ParseRecord(r).Ok? && ParseRecord(r).value.eventId == Decimal.FormatInt(id)
    ensures r == RecordFor(s.rows[id])
  {
    var j :| j in s.rows && r == RecordFor(s.rows[j]);
    PublishParseRoundTrip(j, s.rows[j].body, s.rows[j].createdAt);
    Decimal.FormatInjective(id, j);
  }

  ghost predicate NobodyOwes(s: State, id: int) {
    forall w | w in s.workers && Live(s, w) :: !Owes(s.workers[w], id)
  }

  lemma FetchOwesNothing(cfg: Config, s: State, a: Action, id: int)
    requires HoldInv(s) && a.Fetch? && Enabled(cfg, s, a) && id in s.rows && Terminal(s.rows[id])
    ensures WorkerOf(Apply(cfg, s, a), a.w).Busy? ==> !Owes(WorkerOf(Apply(cfg, s, a), a.w), id)
  {
    var t := Apply(cfg, s, a);
    assert id !in a.ids;
    LeasedIds(s.rows, cfg.batchSize, a.readAt - cfg.lockTimeout, a.skipped, a.ids, a.lockAt);
    if t.workers[a.w].Busy? {
      var batch := t.workers[a.w].batch;
      assert forall i | 0 <= i < |batch| :: Ids(batch)[i] in a.ids;
    }
  }

  lemma OwedByNoneStays(cfg: Config, s: State, a: Action, id: int)
    requires HoldInv(s) && Enabled(cfg, s, a) && id in s.rows && Terminal(s.rows[id]) && NobodyOwes(s, id)
    ensures NobodyOwes(Apply(cfg, s, a), id)
  {
    var t := Apply(cfg, s, a);
    match a
    case Fetch(_, _, _, _, _, _) => FetchOwesNothing(cfg, s, a, id);
    case Mark(_, _, _) => assert Owing(t, id) <= Owing(s, id) by { MarkOwesLess(cfg, s, a, id); }
      forall w | w in t.workers && Live(t, w)
        ensures !Owes(t.workers[w], id)
      {
        assert w in Owing(t, id) ==> w in Owing(s, id);
      }
    case _ =>
  }

  /** A record published for an event nobody owes is of another event. */
  lemma PublishesOther(cfg: Config, s: State, a: Action, id: int)
    requires HoldInv(s) && a.Publish? && a.appended && Enabled(cfg, s, a) && id in s.rows && NobodyOwes(s, id)
    ensures RecordFor(s.workers[a.w].batch[0]) != RecordFor(s.rows[id])
  {
    var e := s.workers[a.w].batch[0];
    assert HoldsOk(s.rows, s.log, s.workers[a.w]);
    assert Owes(s.workers[a.w], e.id);
    if RecordFor(e) == RecordFor(s.rows[id]) {
      RecordInjective(e.id, e.body, e.createdAt, s.rows[id].id, s.rows[id].body, s.rows[id].createdAt);
    }
  }

  lemma NoNewCopies(cfg: Config, s: State, a: Action, id: int, i: nat)
    requires HoldInv(s) && Enabled(cfg, s, a) && id in s.rows && NobodyOwes(s, id)
    requires i < |Apply(cfg, s, a).log| && Apply(cfg, s, a).log[i] == RecordFor(s.rows[id])
    ensures i < |s.log| && s.log[i] == RecordFor(s.rows[id])
  {
    StepMovesForward(cfg, s, a);
    if i >= |s.log| {
      PublishesOther(cfg, s, a, id);
    }
  }

  lemma MakeKeepsStranded(cfg: Config, place: Placement, g: Group, m: Move, id: int)
    requires GroupInv(cfg, g) && m.Make? && CanMove(cfg, place, g, m) && IsStranded(place, g, id)
    ensures IsStranded(place, Moved(cfg, place, g, m), id)
  {
    var h, s := Moved(cfg, place, g, m), g.system.made;
    StepMovesForward(cfg, s, m.action);
    if s.rows[id].status.Processed? {
      assert NobodyOwes(s, id);
      OwedByNoneStays(cfg, s, m.action, id);
      forall i | CopyInReach(place, h, RecordFor(s.rows[id]), i)
        ensures false
      {
        NoNewCopies(cfg, s, m.action, id, i);
        assert !CopyInReach(place, g, RecordFor(s.rows[id]), i);
        ReachNeverGrows(cfg, place, g, m, i);
      }
    }
  }

  lemma WorkKeepsStranded(cfg: Config, place: Placement, g: Group, m: Move, id: int)
    requires m.Work? && CanMove(cfg, place, g, m) && IsStranded(place, g, id)
    ensures IsStranded(place, Moved(cfg, place, g, m), id)
  {
    var h := Moved(cfg, place, g, m);
    var r := RecordFor(g.system.made.rows[id]);
    forall i | CopyInReach(place, h, r, i)
      ensures CopyInReach(place, g, r, i)
    {
    }
  }

  lemma DeliverKeepsStranded(cfg: Config, place: Placement, g: Group, m: Move, id: int)
    requires GroupInv(cfg, g) && m.Deliver? && CanMove(cfg, place, g, m) && IsStranded(place, g, id)
    ensures IsStranded(place, Moved(cfg, place, g, m), id)
  {
    var h, s := Moved(cfg, place, g, m), g.system.made;
    var r := RecordFor(s.rows[id]);
    if s.rows[id].status.Processed? {
      if ParseRecord(s.log[m.i]).value.eventId == Decimal.FormatInt(id) {
        RecordOfRow(s, s.log[m.i], id);
        assert CopyInReach(place, g, r, m.i);
      }
      forall i | CopyInReach(place, h, r, i)
        ensures false
      {
        assert !CopyInReach(place, g, r, i);
        ReachNeverGrows(cfg, place, g, m, i);
      }
    }
  }

  /** Joining, leaving, skipping and committing offsets change only what is in reach. */
  lemma OffsetMoveKeepsStranded(cfg: Config, place: Placement, g: Group, m: Move, id: int)
    requires !m.Make? && !m.Work? && !m.Deliver? && CanMove(cfg, place, g, m) && IsStranded(place, g, id)
    ensures IsStranded(place, Moved(cfg, place, g, m), id)
  {
    var h, r := Moved(cfg, place, g, m), RecordFor(g.system.made.rows[id]);
    forall i | CopyInReach(place, h, r, i)
      ensures CopyInReach(place, g, r, i)
    {
      if !InReach(place, g, i) {
        ReachNeverGrows(cfg, place, g, m, i);
      }
    }
  }

  lemma MoveKeepsStranded(cfg: Config, place: Placement, g: Group, m: Move, id: int)
    requires GroupInv(cfg, g) && CanMove(cfg, place, g, m) && IsStranded(place, g, id)
    ensures IsStranded(place, Moved(cfg, place, g, m), id)
  {
    match m
    case Make(_) => MakeKeepsStranded(cfg, place, g, m, id);
    case Work(_) => WorkKeepsStranded(cfg, place, g, m, id);
    case Deliver(_, _, _) => DeliverKeepsStranded(cfg, place, g, m, id);
    case _ => OffsetMoveKeepsStranded(cfg, place, g, m, id);
  }

  lemma {:induction false} StrandedStays(cfg: Config, place: Placement, g: Group, moves: seq<Move>, id: int)
    requires ValidConfig(cfg) && GroupInv(cfg, g) && IsStranded(place, g, id)
    ensures Moves(cfg, place, g, moves).Some? ==>
              GroupInv(cfg, Moves(cfg, place, g, moves).value) && IsStranded(place, Moves(cfg, place, g, moves).value, id)
    decreases |moves|
  {
    if moves != [] && CanMove(cfg, place, g, moves[0]) {
      MoveKeepsStranded(cfg, place, g, moves[0], id);
      MoveKeepsOffsets(cfg, place, g, moves[0]);
      MoveKeepsSystem(cfg, place, g, moves[0]);
      StrandedStays(cfg, place, Moved(cfg, place, g, moves[0]), moves[1..], id);
    }
  }

  /** In a settled state every row is processed by the consumers. */
  lemma SettledIsDone(s: State, processed: set<string>, id: int)
    requires LogInv(s) && BornInv(s) && HoldInv(s) && id in s.rows && s.rows[id].status.Processed?
    requires forall r, event | r in s.log && ParseRecord(r) == Ok(event) :: event.eventId in processed
    ensures Decimal.FormatInt(id) in processed
  {
    var e := s.rows[id];
    assert TellsOf(s.born, e);
    PublishParseRoundTrip(id, e.body, e.createdAt);
  }

  /** Once an event is stranded no continuation settles. */
  lemma StrandedNeverSettles(cfg: Config, place: Placement, g: Group, h: Group, id: int)
    requires ValidConfig(cfg) && GroupInv(cfg, g) && IsStranded(place, g, id) && Leads(cfg, place, g, h)
    ensures !Settled(h.system)
  {
    var moves :| Moves(cfg, place, g, moves) == Some(h);
    StrandedStays(cfg, place, g, moves, id);
    if Settled(h.system) {
      SettledIsDone(h.system.made, h.system.read.processed, id);
    }
  }
}
