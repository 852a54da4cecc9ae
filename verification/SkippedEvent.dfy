/** A run without any FAILED row that can never settle: a record fails, the next one succeeds, and its offset covers both. */
module SkippedEvent {
  import opened Wrappers
  import opened EventFormat
  import opened OutboxTable
  import opened Pipeline
  import opened EndToEnd
  import opened ConsumerGroup
  import opened Stranded
  import Finishing
  import Consumers
  import Decimal

  const ALICE := Registration("alice@example.com", "USER")

  /** Published rows only, one worker at most, which holds nothing. */
  ghost predicate AllSent(s: State) {
    && (forall id | id in s.rows :: s.rows[id].status.Processed?)
    && (forall w | w in s.workers :: s.workers[w].Busy? && s.workers[w].batch == [])
    && s.workers.Keys <= {0}
  }

  lemma OneCreated(cfg: Config, s: State, id: int) returns (t: State)
    requires ValidConfig(cfg) && Reachable(cfg, s) && AllSent(s) && id !in s.rows && id !in s.born
    ensures Reachable(cfg, t) && t.log == s.log && t.clock == s.clock && t.born.Keys == s.born.Keys + {id}
    ensures t.rows == s.rows[id := NewRow(id, UserRegisteredBody(id, ALICE.email, ALICE.role), 0)]
    ensures t.workers == map[0 := Started(s.clock)]
  {
    t := Continue(cfg, INITIAL, s, Create(id, id, ALICE, 0));
    t := Continue(cfg, INITIAL, t, Crash(0));
    t := Continue(cfg, INITIAL, t, Start(0));
  }

  /** Worker 0 leases the only row that is not yet published. */
  lemma OneLeased(cfg: Config, s: State, id: int) returns (t: State)
    requires ValidConfig(cfg) && Reachable(cfg, s) && id in s.rows && s.rows[id].status.New?
    requires WorkerOf(s, 0) == Started(s.clock)
    requires forall other | other in s.rows && other != id :: s.rows[other].status.Processed?
    ensures Reachable(cfg, t) && t.log == s.log && t.clock == s.clock && t.born == s.born
    ensures t.rows == s.rows[id := LeasedRow(s.rows[id], s.clock)]
    ensures t.workers == s.workers[0 := Busy(s.clock + cfg.processTimeout, [t.rows[id]], Ready)]
  {
    assert Selects(s.rows, cfg.batchSize, s.clock - cfg.lockTimeout, {}, [id]);
    t := Continue(cfg, INITIAL, s, Fetch(0, s.clock, s.clock, {}, [id], true));
    assert Leased(s.rows, [id], s.clock) == s.rows[id := LeasedRow(s.rows[id], s.clock)];
    assert Fetched(t.rows, [id]) == [t.rows[id]];
  }

  /** One more user is created, and its event published and marked. */
  lemma OneSent(cfg: Config, s: State, id: int) returns (t: State)
    requires ValidConfig(cfg) && Reachable(cfg, s) && AllSent(s) && id !in s.rows && id !in s.born
    ensures Reachable(cfg, t) && AllSent(t) && t.born.Keys == s.born.Keys + {id}
    ensures t.rows.Keys == s.rows.Keys + {id} && t.rows[id].id == id
    ensures forall other | other in s.rows :: t.rows[other] == s.rows[other]
    ensures t.log == s.log + [RecordFor(t.rows[id])]
  {
    var created := OneCreated(cfg, s, id);
    var leased := OneLeased(cfg, created, id);
    t := Finishing.HeadMarked(cfg, INITIAL, leased);
  }

  /** Two events published, each once, and nothing read. */
  lemma TwoSent(cfg: Config, place: Placement) returns (g: Group)
    requires ValidConfig(cfg)
    ensures Leads(cfg, place, EMPTY, g) && g == EMPTY.(system := System(g.system.made, Consumers.INITIAL))
    ensures AllSent(g.system.made) && g.system.made.rows.Keys == {1, 2}
    ensures g.system.made.rows[1].id == 1 && g.system.made.rows[2].id == 2
    ensures g.system.made.log == [RecordFor(g.system.made.rows[1]), RecordFor(g.system.made.rows[2])]
  {
    ReachableInitially(cfg);
    var one := OneSent(cfg, INITIAL, 1);
    var two := OneSent(cfg, one, 2);
    g := EMPTY.(system := System(two, Consumers.INITIAL));
    LeadsMakes(cfg, place, EMPTY, two);
  }

  /** A consumer joins, and its transaction for the first record fails. */
  lemma FirstFails(cfg: Config, place: Placement, g: Group) returns (h: Group)
    requires Leads(cfg, place, EMPTY, g) && g == EMPTY.(system := System(g.system.made, Consumers.INITIAL))
    requires |g.system.made.log| == 2 && ParseRecord(g.system.made.log[0]).Ok?
    ensures Leads(cfg, place, EMPTY, h) && h.system.made == g.system.made && h.committed == map[]
    ensures h.system.read == Consumers.State({}, [], map[7 := Consumers.Idle])
    ensures h.positions == map[Seat(7, place(0)) := 1] && h.hands == map[]
  {
    var joined := LeadsMove(cfg, place, EMPTY, g, Join(7, place(0)));
    var taken := LeadsDeliver(cfg, place, EMPTY, joined, Seat(7, place(0)), 0);
    h := LeadsMove(cfg, place, EMPTY, taken, Work(Consumers.Abort(7)));
  }

  /** It goes on to the second record. */
  lemma SecondTaken(cfg: Config, place: Placement, g: Group, event: ConsumedEvent) returns (h: Group)
    requires Leads(cfg, place, EMPTY, g) && |g.system.made.log| == 2 && place(1) == place(0)
    requires g.system.read == Consumers.State({}, [], map[7 := Consumers.Idle]) && g.committed == map[]
    requires g.positions == map[Seat(7, place(0)) := 1] && g.hands == map[]
    requires ParseRecord(g.system.made.log[1]) == Ok(event)
    ensures Leads(cfg, place, EMPTY, h) && h.system.made == g.system.made && h.committed == map[]
    ensures h.system.read == Consumers.State({}, [], map[7 := Consumers.Reading(event)])
    ensures h.positions == map[Seat(7, place(0)) := 2] && h.hands == map[7 := Hand(place(0), false)]
  {
    h := LeadsDeliver(cfg, place, EMPTY, g, Seat(7, place(0)), 1);
  }

  /** That one succeeds as far as its audit row. */
  lemma SecondAudited(cfg: Config, place: Placement, g: Group, event: ConsumedEvent, row: AuditRow) returns (h: Group)
    requires Leads(cfg, place, EMPTY, g) && g.committed == map[] && AuditFor(event) == Ok(row)
    requires g.system.read == Consumers.State({}, [], map[7 := Consumers.Reading(event)])
    requires g.positions == map[Seat(7, place(0)) := 2] && g.hands == map[7 := Hand(place(0), false)]
    ensures Leads(cfg, place, EMPTY, h) && h.system.made == g.system.made && h.committed == map[]
    ensures h.system.read == Consumers.State({}, [], map[7 := Consumers.Audited(event, row)])
    ensures h.positions == map[Seat(7, place(0)) := 2] && h.hands == map[7 := Hand(place(0), false)]
  {
    h := LeadsMove(cfg, place, EMPTY, g, Work(Consumers.Read(7)));
    h := LeadsMove(cfg, place, EMPTY, h, Work(Consumers.Insert(7)));
  }

  /** Its transaction and then its offset are committed. */
  lemma SecondCommits(cfg: Config, place: Placement, g: Group, event: ConsumedEvent, row: AuditRow) returns (h: Group)
    requires Leads(cfg, place, EMPTY, g) && g.committed == map[]
    requires g.system.read == Consumers.State({}, [], map[7 := Consumers.Audited(event, row)])
    requires g.positions == map[Seat(7, place(0)) := 2] && g.hands == map[7 := Hand(place(0), false)]
    ensures Leads(cfg, place, EMPTY, h) && h.system.made == g.system.made
    ensures h.system.read.processed == {event.eventId} && h.system.read.txs == map[7 := Consumers.Idle]
    ensures h.committed == map[place(0) := 2] && h.positions == map[Seat(7, place(0)) := 2]
  {
    h := LeadsMove(cfg, place, EMPTY, g, Work(Consumers.MarkDone(7)));
    h := LeadsMove(cfg, place, EMPTY, h, Work(Consumers.Commit(7)));
    h := LeadsMove(cfg, place, EMPTY, h, CommitOffset(7));
  }

  /** For every placement of the first two records in one partition, a run ends with both rows PROCESSED and yet
      the first event stranded: no continuation of it settles. */
  lemma SkippedForever(cfg: Config, place: Placement) returns (g: Group)
    requires ValidConfig(cfg) && place(1) == place(0)
    ensures Leads(cfg, place, EMPTY, g)
    ensures forall id | id in g.system.made.rows :: g.system.made.rows[id].status.Processed?
    ensures IsStranded(place, g, 1)
    ensures forall h | Leads(cfg, place, g, h) :: !Settled(h.system)
  {
    var sent := TwoSent(cfg, place);
    ReachedInv(cfg, place, sent);
    var rows := sent.system.made.rows;
    Finishing.RecordsHandled(sent.system.made);
    assert RecordFor(rows[1]) in sent.system.made.log && RecordFor(rows[2]) in sent.system.made.log;
    var event := ParseRecord(RecordFor(rows[2])).value;
    var failed := FirstFails(cfg, place, sent);
    var taken := SecondTaken(cfg, place, failed, event);
    var audited := SecondAudited(cfg, place, taken, event, AuditFor(event).value);
    g := SecondCommits(cfg, place, audited, event, AuditFor(event).value);
    PublishParseRoundTrip(2, rows[2].body, rows[2].createdAt);
    FirstIsStranded(place, g);
    ReachedInv(cfg, place, g);
    forall h | Leads(cfg, place, g, h)
      ensures !Settled(h.system)
    {
      StrandedNeverSettles(cfg, place, g, h, 1);
    }
  }

  lemma FirstIsStranded(place: Placement, g: Group)
    requires place(1) == place(0) && g.system.made.rows.Keys == {1, 2}
    requires g.system.made.rows[1].id == 1 && g.system.made.rows[2].id == 2
    requires g.system.made.rows[1].status.Processed?
    requires g.system.made.log == [RecordFor(g.system.made.rows[1]), RecordFor(g.system.made.rows[2])]
    requires forall w | w in g.system.made.workers :: g.system.made.workers[w].Busy? && g.system.made.workers[w].batch == []
    requires g.system.read.processed == {Decimal.FormatInt(2)} && g.system.read.txs == map[7 := Consumers.Idle]
    requires g.committed == map[place(0) := 2] && g.positions == map[Seat(7, place(0)) := 2]
    ensures IsStranded(place, g, 1)
  {
    var rows := g.system.made.rows;
    if Decimal.FormatInt(1) == Decimal.FormatInt(2) {
      Decimal.FormatInjective(1, 2);
    }
    if RecordFor(rows[1]) == RecordFor(rows[2]) {
      RecordInjective(1, rows[1].body, rows[1].createdAt, 2, rows[2].body, rows[2].createdAt);
    }
  }
}
