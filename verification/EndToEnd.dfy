/** Producers and consumers together, joined by the log. */
module EndToEnd {
  import opened Wrappers
  import opened EventFormat
  import opened OutboxTable
  import opened Pipeline
  import opened PipelineInvariants
  import Consumers
  import Decimal

  datatype System = System(made: State, read: Consumers.State)

  datatype Step = Produce(p: Action) | Consume(c: Consumers.Action)

  const START := System(INITIAL, Consumers.INITIAL)

  ghost predicate CanStep(cfg: Config, auditKey: bool, s: System, step: Step) {
    match step
    case Produce(p) => Enabled(cfg, s.made, p)
    case Consume(c) => Consumers.Enabled(auditKey, s.made.log, s.read, c)
  }

  function Take(cfg: Config, auditKey: bool, s: System, step: Step): System
    requires CanStep(cfg, auditKey, s, step)
  {
    match step
    case Produce(p) => s.(made := Apply(cfg, s.made, p))
    case Consume(c) => s.(read := Consumers.Apply(auditKey, s.made.log, s.read, c))
  }

  ghost function Run(cfg: Config, auditKey: bool, s: System, steps: seq<Step>): Option<System>
    decreases |steps|
  {
    if steps == [] then Some(s)
    else if CanStep(cfg, auditKey, s, steps[0])
      then Run(cfg, auditKey, Take(cfg, auditKey, s, steps[0]), steps[1..])
    else None
  }

  ghost predicate Reaches(cfg: Config, auditKey: bool, s: System) {
    exists steps :: Run(cfg, auditKey, START, steps) == Some(s)
  }

  ghost predicate SystemInv(cfg: Config, s: System) {
    Inv(cfg, s.made) && Consumers.Inv(s.made.log, s.read)
  }

  lemma {:induction false} RunKeepsSystem(cfg: Config, s: System, steps: seq<Step>)
    requires ValidConfig(cfg) && SystemInv(cfg, s)
    ensures Run(cfg, true, s, steps).Some? ==> SystemInv(cfg, Run(cfg, true, s, steps).value)
    decreases |steps|
  {
    if steps != [] && CanStep(cfg, true, s, steps[0]) {
      match steps[0] {
        case Produce(p) =>
          assert Exec(cfg, Apply(cfg, s.made, p), []).Some?;
          RunKeepsInv(cfg, s.made, [p]);
          assert Exec(cfg, s.made, [p]) == Some(Apply(cfg, s.made, p));
          StepMovesForward(cfg, s.made, p);
          Consumers.LogGrowthKeepsInv(s.made.log, Apply(cfg, s.made, p).log, s.read);
        case Consume(c) => Consumers.StepKeepsInv(s.made.log, s.read, c);
      }
      RunKeepsSystem(cfg, Take(cfg, true, s, steps[0]), steps[1..]);
    }
  }

  lemma ReachesInv(cfg: Config, s: System)
    requires ValidConfig(cfg) && Reaches(cfg, true, s)
    ensures SystemInv(cfg, s)
  {
    var steps :| Run(cfg, true, START, steps) == Some(s);
    RunKeepsSystem(cfg, START, steps);
  }

  // ----- the main results -----

  /** The audit row that belongs to one outbox row: the numeral of its id, and the user as created. */
  predicate AuditsRow(s: System, row: AuditRow, id: int) {
    && Decimal.IsNumeral(row.sourceEventId) && Decimal.ParseInt(row.sourceEventId) == id
    && row.eventType == "user.registered"
    && id in s.made.rows
    && s.made.rows[id].body.payload == UserRegistered(row.userId, row.email, row.role)
    && row.userId in s.made.born && s.made.born[row.userId] == Registration(row.email, row.role)
  }

  lemma RecordAudits(s: System, row: AuditRow, r: Record)
    requires LogInv(s.made) && BornInv(s.made) && HoldInv(s.made)
    requires r in s.made.log && AuditOf(r) == Some(row)
    ensures exists id :: AuditsRow(s, row, id)
  {
    var id :| id in s.made.rows && r == RecordFor(s.made.rows[id]);
    var e := s.made.rows[id];
    assert TellsOf(s.made.born, e);
    var u := e.body.payload.userId;
    OwnRecordsAudited(id, u, s.made.born[u].email, s.made.born[u].role, e.createdAt);
    Decimal.FormatParse(id);
    assert AuditsRow(s, row, id);
  }

  /** Audit rows of one user have one source id. */
  lemma OneSource(s: System, first: AuditRow, second: AuditRow, i: int, j: int)
    requires BornInv(s.made) && AuditsRow(s, first, i) && AuditsRow(s, second, j) && first.userId == second.userId
    ensures first.sourceEventId == second.sourceEventId
  {
    assert s.made.eventOf[first.userId] == i == j;
    Decimal.NumeralRendered(first.sourceEventId);
    Decimal.NumeralRendered(second.sourceEventId);
  }

  /** In every run, every audit row carries the one numeral of exactly one outbox row's id and the data its
      user was created with, and neither a source id nor a user has two audit rows. */
  lemma AuditIsExact(cfg: Config, s: System)
    requires ValidConfig(cfg) && Reaches(cfg, true, s)
    ensures forall row | row in s.read.audit :: exists id :: AuditsRow(s, row, id)
    ensures forall row, i, j | AuditsRow(s, row, i) && AuditsRow(s, row, j) :: i == j
    ensures forall i, j | 0 <= i < j < |s.read.audit| ::
              s.read.audit[i].sourceEventId != s.read.audit[j].sourceEventId &&
              s.read.audit[i].userId != s.read.audit[j].userId
  {
    ReachesInv(cfg, s);
    forall row | row in s.read.audit
      ensures exists id :: AuditsRow(s, row, id)
    {
      var i :| 0 <= i < |s.made.log| && AuditOf(s.made.log[i]) == Some(row);
      RecordAudits(s, row, s.made.log[i]);
    }
    forall i, j | 0 <= i < j < |s.read.audit|
      ensures s.read.audit[i].userId != s.read.audit[j].userId
    {
      assert s.read.audit[i] in s.read.audit && s.read.audit[j] in s.read.audit;
      var a :| AuditsRow(s, s.read.audit[i], a);
      var b :| AuditsRow(s, s.read.audit[j], b);
      if s.read.audit[i].userId == s.read.audit[j].userId {
        OneSource(s, s.read.audit[i], s.read.audit[j], a, b);
      }
    }
  }

  /** The processed ids are the audited ids at every moment. */
  lemma ProcessedIsAudited(cfg: Config, s: System)
    requires ValidConfig(cfg) && Reaches(cfg, true, s)
    ensures Consumers.Sources(s.read.audit) == s.read.processed
  {
    ReachesInv(cfg, s);
  }

  /** In every run, a transaction that gets to mark its event finds it marked by no committed and by no open
      transaction: the ON CONFLICT branch of the mark is never taken. */
  lemma MarkNeverConflicts(cfg: Config, s: System, c: int)
    requires ValidConfig(cfg) && Reaches(cfg, true, s) && Consumers.TxOf(s.read, c).Audited?
    ensures Consumers.TxOf(s.read, c).event.eventId !in s.read.processed
    ensures !Consumers.MarkLocked(s.read, c, Consumers.TxOf(s.read, c).event.eventId)
  {
    ReachesInv(cfg, s);
    Consumers.OnConflictNeverFires(s.made.log, s.read, c);
  }

  /** Nothing is left to publish or to consume. */
  ghost predicate Settled(s: System) {
    && (forall id | id in s.made.rows :: s.made.rows[id].status.Processed?)
    && (forall r, event | r in s.made.log && ParseRecord(r) == Ok(event) :: event.eventId in s.read.processed)
  }

  lemma RowAudited(s: System, id: int) returns (row: AuditRow)
    requires LogInv(s.made) && BornInv(s.made) && Consumers.Inv(s.made.log, s.read)
    requires Settled(s) && id in s.made.rows && Keyed(s.made.rows)
    ensures row in s.read.audit && row.sourceEventId == Decimal.FormatInt(id)
  {
    var e := s.made.rows[id];
    assert TellsOf(s.made.born, e);
    PublishParseRoundTrip(id, e.body, e.createdAt);
    assert RecordFor(e) in s.made.log;
    assert Decimal.FormatInt(id) in Consumers.Sources(s.read.audit);
    var i :| 0 <= i < |s.read.audit| && s.read.audit[i].sourceEventId == Decimal.FormatInt(id);
    row := s.read.audit[i];
  }

  lemma SourceTellsUser(s: System, row: AuditRow, r: Record, id: int, u: int)
    requires LogInv(s.made) && BornInv(s.made) && HoldInv(s.made)
    requires r in s.made.log && AuditOf(r) == Some(row) && row.sourceEventId == Decimal.FormatInt(id)
    requires u in s.made.born && id in s.made.rows && IsFor(s.made.rows[id], u)
    ensures row.userId == u && row.email == s.made.born[u].email && row.role == s.made.born[u].role
  {
    RecordAudits(s, row, r);
    var j :| AuditsRow(s, row, j);
    Decimal.FormatParse(id);
  }

  lemma SettledRow(s: System, u: int) returns (row: AuditRow)
    requires LogInv(s.made) && BornInv(s.made) && HoldInv(s.made) && Consumers.Inv(s.made.log, s.read)
    requires Settled(s) && u in s.made.born
    ensures row in s.read.audit && row.userId == u
    ensures row.email == s.made.born[u].email && row.role == s.made.born[u].role
  {
    var id := s.made.eventOf[u];
    row := RowAudited(s, id);
    var i :| 0 <= i < |s.made.log| && AuditOf(s.made.log[i]) == Some(row);
    SourceTellsUser(s, row, s.made.log[i], id, u);
  }

  /** Exactly once, end to end: when a run settles, every user ever created has its audit row with the
      data it was created with, and by AuditIsExact it has only that one. */
  lemma SettledMeansAudited(cfg: Config, s: System, u: int) returns (row: AuditRow)
    requires ValidConfig(cfg) && Reaches(cfg, true, s) && Settled(s) && u in s.made.born
    ensures row in s.read.audit && row.userId == u
    ensures row.email == s.made.born[u].email && row.role == s.made.born[u].role
    ensures forall other | other in s.read.audit && other.userId == u :: other == row
  {
    ReachesInv(cfg, s);
    row := SettledRow(s, u);
    AuditIsExact(cfg, s);
  }

  // ----- without the unique audit key -----

  lemma RunAppend(cfg: Config, auditKey: bool, s: System, first: seq<Step>, second: seq<Step>)
    requires Run(cfg, auditKey, s, first).Some?
    ensures Run(cfg, auditKey, s, first + second) ==
            Run(cfg, auditKey, Run(cfg, auditKey, s, first).value, second)
    decreases |first|
  {
    if first == [] {
      assert first + second == second;
    } else {
      assert (first + second)[1..] == first[1..] + second;
      RunAppend(cfg, auditKey, Take(cfg, auditKey, s, first[0]), first[1..], second);
    }
  }

  lemma ReachesStep(cfg: Config, auditKey: bool, s: System, step: Step)
    requires Reaches(cfg, auditKey, s) && CanStep(cfg, auditKey, s, step)
    ensures Reaches(cfg, auditKey, Take(cfg, auditKey, s, step))
  {
    var steps :| Run(cfg, auditKey, START, steps) == Some(s);
    RunAppend(cfg, auditKey, START, steps, [step]);
    assert Run(cfg, auditKey, s, [step]) == Some(Take(cfg, auditKey, s, step));
  }

  ghost predicate NoTwins(s: System) {
    forall i, j | 0 <= i < j < |s.read.audit| ::
      s.read.audit[i].sourceEventId != s.read.audit[j].sourceEventId
  }

  lemma ProduceStep(cfg: Config, s: System, a: Action) returns (t: System)
    requires Reaches(cfg, false, s) && Enabled(cfg, s.made, a)
    ensures Reaches(cfg, false, t) && t == System(Apply(cfg, s.made, a), s.read)
  {
    t := Take(cfg, false, s, Produce(a));
    ReachesStep(cfg, false, s, Produce(a));
  }

  lemma OneRecordPublished(cfg: Config) returns (s: System)
    requires ValidConfig(cfg)
    ensures Reaches(cfg, false, s) && s.read == Consumers.INITIAL && |s.made.log| == 1
    ensures s.made.log[0] == RecordOf(1, UserRegisteredBody(1, "alice@example.com", "USER"), 0)
  {
    assert Run(cfg, false, START, []) == Some(START);
    s := ProduceStep(cfg, START, Create(1, 1, Registration("alice@example.com", "USER"), 0));
    s := ProduceStep(cfg, s, Start(10));
    assert Selects(s.made.rows, cfg.batchSize, 0 - cfg.lockTimeout, {}, [1]);
    s := ProduceStep(cfg, s, Fetch(10, 0, 0, {}, [1], true));
    s := ProduceStep(cfg, s, Publish(10, true, None));
  }

  lemma ConsumeStep(cfg: Config, s: System, a: Consumers.Action) returns (t: System)
    requires Reaches(cfg, false, s) && Consumers.Enabled(false, s.made.log, s.read, a)
    ensures Reaches(cfg, false, t) && t == System(s.made, Consumers.Apply(false, s.made.log, s.read, a))
  {
    t := Take(cfg, false, s, Consume(a));
    ReachesStep(cfg, false, s, Consume(a));
  }

  /** A consumer takes the only record, sees it unprocessed, and inserts its audit row. */
  lemma OneInserts(cfg: Config, s: System, c: int, event: ConsumedEvent, row: AuditRow) returns (t: System)
    requires Reaches(cfg, false, s) && |s.made.log| == 1 && c !in s.read.txs && s.read.processed == {}
    requires ParseRecord(s.made.log[0]) == Ok(event) && AuditFor(event) == Ok(row)
    ensures Reaches(cfg, false, t) && t.made == s.made
    ensures t.read == s.read.(txs := s.read.txs[c := Consumers.Audited(event, row)])
  {
    t := ConsumeStep(cfg, s, Consumers.Take(c, 0));
    t := ConsumeStep(cfg, t, Consumers.Read(c));
    t := ConsumeStep(cfg, t, Consumers.Insert(c));
  }

  /** Two consumers do so before either of them commits. */
  lemma BothInsert(cfg: Config, s: System, event: ConsumedEvent, row: AuditRow) returns (t: System)
    requires Reaches(cfg, false, s) && s.read == Consumers.INITIAL && |s.made.log| == 1
    requires ParseRecord(s.made.log[0]) == Ok(event) && AuditFor(event) == Ok(row)
    ensures Reaches(cfg, false, t)
    ensures t.read == Consumers.State({}, [], map[1 := Consumers.Audited(event, row), 2 := Consumers.Audited(event, row)])
  {
    t := OneInserts(cfg, s, 1, event, row);
    t := OneInserts(cfg, t, 2, event, row);
  }

  /** Both of them commit: ON CONFLICT DO NOTHING lets the second one through. */
  lemma BothCommit(cfg: Config, s: System, event: ConsumedEvent, row: AuditRow) returns (t: System)
    requires Reaches(cfg, false, s)
    requires s.read == Consumers.State({}, [], map[1 := Consumers.Audited(event, row), 2 := Consumers.Audited(event, row)])
    ensures Reaches(cfg, false, t) && t.read.audit == [row, row]
  {
    t := ConsumeStep(cfg, s, Consumers.MarkDone(1));
    t := ConsumeStep(cfg, t, Consumers.Commit(1));
    assert t.read.txs == map[1 := Consumers.Idle, 2 := Consumers.Audited(event, row)];
    t := ConsumeStep(cfg, t, Consumers.MarkDone(2));
    t := ConsumeStep(cfg, t, Consumers.Commit(2));
  }

  lemma TwinsWithoutAuditKey(cfg: Config) returns (s: System)
    requires ValidConfig(cfg)
    ensures Reaches(cfg, false, s) && !NoTwins(s)
  {
    s := OneRecordPublished(cfg);
    OwnRecordsAudited(1, 1, "alice@example.com", "USER", 0);
    var event := ParseRecord(s.made.log[0]).value;
    var row := AuditFor(event).value;
    s := BothInsert(cfg, s, event, row);
    s := BothCommit(cfg, s, event, row);
    assert s.read.audit[0].sourceEventId == s.read.audit[1].sourceEventId;
  }

  /** It is the unique key on the audit table that keeps audit rows single, in every run. */
  lemma AuditKeyIff(cfg: Config, auditKey: bool)
    requires ValidConfig(cfg)
    ensures (forall s | Reaches(cfg, auditKey, s) :: NoTwins(s)) <==> auditKey
  {
    if auditKey {
      forall s | Reaches(cfg, auditKey, s)
        ensures NoTwins(s)
      {
        AuditIsExact(cfg, s);
      }
    } else {
      var s := TwinsWithoutAuditKey(cfg);
    }
  }
}
