/** What every step of the producing half keeps: the row state machine, the retry budget, the link
    between users and rows, and the bound on duplicates in the log. */
module PipelineInvariants {
  import opened Wrappers
  import opened EventFormat
  import opened OutboxTable
  import opened Pipeline
  import opened Collections

  // ----- rows and the retry budget -----

  /** How many give-ups an event can have collected in each status. */
  predicate BudgetOk(e: Event, giveUps: nat, maxAttempts: nat) {
    match e.status
    case New => giveUps <= e.attempts
    case Processing => giveUps < e.attempts && giveUps < maxAttempts
    case Processed => giveUps <= maxAttempts
    case Failed => giveUps <= maxAttempts
  }

  predicate RowInv(e: Event, giveUps: nat, maxAttempts: nat) {
    RowOk(e, maxAttempts) && BudgetOk(e, giveUps, maxAttempts)
  }

  ghost predicate RowsInv(cfg: Config, s: State) {
    && Keyed(s.rows)
    && s.giveUps.Keys == s.rows.Keys
    && forall id | id in s.rows :: RowInv(s.rows[id], s.giveUps[id], cfg.maxAttempts)
  }

  lemma LeaseKeepsRow(e: Event, giveUps: nat, maxAttempts: nat, at: int, cutoff: int)
    requires RowInv(e, giveUps, maxAttempts) && Eligible(e, cutoff)
    ensures RowInv(LeasedRow(e, at), giveUps, maxAttempts)
  {
  }

  lemma MarkKeepsRow(e: Event, giveUps: nat, maxAttempts: nat, at: int, reason: string)
    requires RowInv(e, giveUps, maxAttempts) && e.status.Processing?
    ensures RowInv(ProcessedRow(e, at), giveUps, maxAttempts)
    ensures RowInv(FailedRow(e, reason, maxAttempts), giveUps + 1, maxAttempts)
  {
  }

  lemma FetchKeepsRows(cfg: Config, s: State, a: Action)
    requires RowsInv(cfg, s) && a.Fetch? && Enabled(cfg, s, a)
    ensures RowsInv(cfg, Apply(cfg, s, a))
  {
    var t := Apply(cfg, s, a);
    assert t.rows == Leased(s.rows, a.ids, a.lockAt) && t.giveUps == s.giveUps;
    forall id | id in t.rows
      ensures RowInv(t.rows[id], t.giveUps[id], cfg.maxAttempts)
    {
      if id in a.ids {
        LeaseKeepsRow(s.rows[id], s.giveUps[id], cfg.maxAttempts, a.lockAt, a.readAt - cfg.lockTimeout);
      }
    }
  }

  lemma MarkKeepsRows(cfg: Config, s: State, a: Action)
    requires RowsInv(cfg, s) && a.Mark? && Enabled(cfg, s, a)
    ensures RowsInv(cfg, Apply(cfg, s, a))
  {
    var worker := WorkerOf(s, a.w);
    var id := worker.batch[0].id;
    if a.runs && Matches(s.rows, id) {
      var reason := if worker.phase.Unsent? then worker.phase.reason else "";
      MarkKeepsRow(s.rows[id], s.giveUps[id], cfg.maxAttempts, a.at, reason);
    }
  }

  lemma StepKeepsRows(cfg: Config, s: State, a: Action)
    requires ValidConfig(cfg) && RowsInv(cfg, s) && Enabled(cfg, s, a)
    ensures RowsInv(cfg, Apply(cfg, s, a))
  {
    match a
    case Fetch(_, _, _, _, _, _) => FetchKeepsRows(cfg, s, a);
    case Mark(_, _, _) => MarkKeepsRows(cfg, s, a);
    case _ =>
  }

  // ----- what never changes -----

  /** Rows are never removed or rewritten, a PROCESSED or FAILED row never changes at all, attempts
      only grow, the log is only appended to, and no user is forgotten. */
  ghost predicate Later(s: State, t: State) {
    && s.clock <= t.clock
    && s.log <= t.log
    && (forall u | u in s.born :: u in t.born && t.born[u] == s.born[u])
    && (forall id | id in s.rows ::
          && id in t.rows
          && t.rows[id].id == s.rows[id].id
          && t.rows[id].body == s.rows[id].body
          && t.rows[id].createdAt == s.rows[id].createdAt
          && s.rows[id].attempts <= t.rows[id].attempts
          && (Terminal(s.rows[id]) ==> t.rows[id] == s.rows[id]))
  }

  lemma StepMovesForward(cfg: Config, s: State, a: Action)
    requires Enabled(cfg, s, a)
    ensures Later(s, Apply(cfg, s, a))
  {
  }

  lemma {:induction false} RunMovesForward(cfg: Config, s: State, steps: seq<Action>)
    ensures Exec(cfg, s, steps).Some? ==> Later(s, Exec(cfg, s, steps).value)
    decreases |steps|
  {
    if steps != [] && Enabled(cfg, s, steps[0]) {
      StepMovesForward(cfg, s, steps[0]);
      RunMovesForward(cfg, Apply(cfg, s, steps[0]), steps[1..]);
    }
  }

  // ----- users and their rows -----

  predicate IsFor(e: Event, userId: int) {
    e.body.payload.UserRegistered? && e.body.payload.userId == userId
  }

  predicate TellsOf(born: map<int, Registration>, e: Event) {
    && e.body.payload.UserRegistered?
    && var u := e.body.payload.userId;
       u in born && e.body == UserRegisteredBody(u, born[u].email, born[u].role)
  }

  /** Every row tells of a committed user as it was created, and the event written with a user is the
      only one that tells of it. */
  ghost predicate Linked(born: map<int, Registration>, eventOf: map<int, int>, rows: Rows) {
    && (forall id | id in rows ::
          && TellsOf(born, rows[id])
          && rows[id].body.payload.userId in eventOf
          && eventOf[rows[id].body.payload.userId] == id)
    && (forall u | u in born :: u in eventOf && eventOf[u] in rows && IsFor(rows[eventOf[u]], u))
  }

  lemma LinkedCreate(born: map<int, Registration>, eventOf: map<int, int>, rows: Rows,
                     userId: int, user: Registration, eventId: int, createdAt: int)
    requires Linked(born, eventOf, rows) && userId !in born && eventId !in rows
    ensures Linked(born[userId := user], eventOf[userId := eventId],
                   rows[eventId := NewRow(eventId, UserRegisteredBody(userId, user.email, user.role), createdAt)])
  {
    assert forall id | id in rows :: !IsFor(rows[id], userId);
  }

  ghost predicate BornInv(s: State) {
    Linked(s.born, s.eventOf, s.rows)
  }

  lemma BornFrame(s: State, t: State)
    requires BornInv(s) && t.born == s.born && t.eventOf == s.eventOf && t.rows.Keys == s.rows.Keys
    requires forall id | id in s.rows :: t.rows[id].body == s.rows[id].body
    ensures BornInv(t)
  {
  }

  lemma StepKeepsBorn(cfg: Config, s: State, a: Action)
    requires BornInv(s) && Enabled(cfg, s, a)
    ensures BornInv(Apply(cfg, s, a))
  {
    if a.Create? {
      LinkedCreate(s.born, s.eventOf, s.rows, a.userId, a.user, a.eventId, a.createdAt);
    } else {
      StepMovesForward(cfg, s, a);
      BornFrame(s, Apply(cfg, s, a));
    }
  }

  // ----- what workers hold -----

  ghost predicate HoldsOk(rows: Rows, log: seq<Record>, worker: Worker) {
    worker.Busy? ==>
      && Distinct(Ids(worker.batch))
      && (forall e | e in worker.batch ::
            e.id in rows && rows[e.id].body == e.body && rows[e.id].createdAt == e.createdAt)
      && (!worker.phase.Ready? ==> worker.batch != [])
      && (worker.phase.Sent? ==> RecordFor(worker.batch[0]) in log)
  }

  ghost predicate HoldInv(s: State) {
    && Keyed(s.rows)
    && forall w | w in s.workers :: HoldsOk(s.rows, s.log, s.workers[w])
  }

  lemma HoldsOkLater(s: State, t: State, worker: Worker)
    requires Later(s, t) && HoldsOk(s.rows, s.log, worker)
    ensures HoldsOk(t.rows, t.log, worker)
  {
    assert forall r | r in s.log :: r in t.log;
  }

  lemma StepKeepsHolds(cfg: Config, s: State, a: Action)
    requires HoldInv(s) && Enabled(cfg, s, a)
    ensures HoldInv(Apply(cfg, s, a))
  {
    var t := Apply(cfg, s, a);
    StepMovesForward(cfg, s, a);
    forall w | w in t.workers
      ensures HoldsOk(t.rows, t.log, t.workers[w])
    {
      if w in s.workers && t.workers[w] == s.workers[w] {
        HoldsOkLater(s, t, s.workers[w]);
      } else {
        StepKeepsOwnHolds(cfg, s, a, w);
      }
    }
  }

  lemma FetchHolds(cfg: Config, s: State, a: Action)
    requires HoldInv(s) && a.Fetch? && Enabled(cfg, s, a)
    ensures var t := Apply(cfg, s, a); HoldsOk(t.rows, t.log, t.workers[a.w])
  {
    LeasedIds(s.rows, cfg.batchSize, a.readAt - cfg.lockTimeout, a.skipped, a.ids, a.lockAt);
  }

  lemma PublishHolds(cfg: Config, s: State, a: Action)
    requires HoldInv(s) && a.Publish? && Enabled(cfg, s, a)
    ensures var t := Apply(cfg, s, a); HoldsOk(t.rows, t.log, t.workers[a.w])
  {
    var t := Apply(cfg, s, a);
    assert HoldsOk(s.rows, s.log, s.workers[a.w]);
    assert a.appended ==> t.log[|s.log|] == RecordFor(s.workers[a.w].batch[0]);
  }

  lemma MarkHolds(cfg: Config, s: State, a: Action)
    requires HoldInv(s) && a.Mark? && Enabled(cfg, s, a)
    ensures var t := Apply(cfg, s, a); HoldsOk(t.rows, t.log, t.workers[a.w])
  {
    var batch := s.workers[a.w].batch;
    assert HoldsOk(s.rows, s.log, s.workers[a.w]);
    DistinctTail(Ids(batch));
    assert Ids(batch[1..]) == Ids(batch)[1..];
    assert forall e | e in batch[1..] :: e in batch;
  }

  lemma StepKeepsOwnHolds(cfg: Config, s: State, a: Action, w: int)
    requires HoldInv(s) && Enabled(cfg, s, a)
    requires w in Apply(cfg, s, a).workers
    requires w in s.workers ==> Apply(cfg, s, a).workers[w] != s.workers[w]
    ensures var t := Apply(cfg, s, a); HoldsOk(t.rows, t.log, t.workers[w])
  {
    match a
    case Fetch(_, _, _, _, _, _) => FetchHolds(cfg, s, a);
    case Publish(_, _, _) => PublishHolds(cfg, s, a);
    case Mark(_, _, _) => MarkHolds(cfg, s, a);
    case _ =>
  }

  // ----- the log -----

  /** Every record comes from a row, and every PROCESSED row has its record in the log. */
  ghost predicate LogInv(s: State) {
    && (forall r | r in s.log :: exists id :: id in s.rows && r == RecordFor(s.rows[id]))
    && (forall id | id in s.rows && s.rows[id].status.Processed? :: RecordFor(s.rows[id]) in s.log)
  }

  lemma StepKeepsLog(cfg: Config, s: State, a: Action)
    requires HoldInv(s) && LogInv(s) && Enabled(cfg, s, a)
    ensures LogInv(Apply(cfg, s, a))
  {
    var t := Apply(cfg, s, a);
    StepMovesForward(cfg, s, a);
    forall r | r in t.log
      ensures exists id :: id in t.rows && r == RecordFor(t.rows[id])
    {
      if r in s.log {
        var id :| id in s.rows && r == RecordFor(s.rows[id]);
        assert id in t.rows && r == RecordFor(t.rows[id]);
      } else {
        var e := s.workers[a.w].batch[0];
        assert e.id in t.rows && r == RecordFor(t.rows[e.id]);
      }
    }
    forall id | id in t.rows && t.rows[id].status.Processed?
      ensures RecordFor(t.rows[id]) in t.log
    {
      if id in s.rows && s.rows[id].status.Processed? {
        assert RecordFor(s.rows[id]) in s.log;
      } else {
        assert a.Mark? && id == s.workers[a.w].batch[0].id;
      }
    }
  }

  // ----- duplicates -----

  /** The worker still has the event to publish. */
  ghost predicate Owes(worker: Worker, id: int) {
    worker.Busy? && exists i :: 0 <= i < |worker.batch| && worker.batch[i].id == id && (i > 0 || worker.phase.Ready?)
  }

  ghost function Owing(s: State, id: int): set<int> {
    set w | w in s.workers && Owes(s.workers[w], id)
  }

  ghost function Copies(s: State, id: int): nat
    requires id in s.rows
  {
    multiset(s.log)[RecordFor(s.rows[id])]
  }

  /** Copies in the log plus publish calls still to come never exceed the row's attempts. */
  ghost predicate DupInv(s: State) {
    forall id | id in s.rows :: Copies(s, id) + |Owing(s, id)| <= s.rows[id].attempts
  }

  lemma OwingShrinks(s: State, t: State, id: int)
    requires Owing(t, id) <= Owing(s, id)
    ensures |Owing(t, id)| <= |Owing(s, id)|
  {
    SubsetSize(Owing(t, id), Owing(s, id));
  }

  /** A lease makes its worker owe the leased events, and nobody owe any other. */
  lemma FetchOwes(cfg: Config, s: State, a: Action, id: int)
    requires a.Fetch? && HoldInv(s) && Enabled(cfg, s, a)
    ensures Owing(Apply(cfg, s, a), id) <= Owing(s, id) + if id in a.ids then {a.w} else {}
  {
    var t := Apply(cfg, s, a);
    LeasedIds(s.rows, cfg.batchSize, a.readAt - cfg.lockTimeout, a.skipped, a.ids, a.lockAt);
    forall w | w in Owing(t, id) && w == a.w
      ensures id in a.ids
    {
      var i :| 0 <= i < |t.workers[w].batch| && t.workers[w].batch[i].id == id;
      assert Ids(t.workers[w].batch)[i] == id;
    }
  }

  lemma FetchKeepsDup(cfg: Config, s: State, a: Action, id: int)
    requires a.Fetch? && HoldInv(s) && DupInv(s) && Enabled(cfg, s, a) && id in s.rows
    ensures var t := Apply(cfg, s, a); Copies(t, id) + |Owing(t, id)| <= t.rows[id].attempts
  {
    var t := Apply(cfg, s, a);
    FetchOwes(cfg, s, a, id);
    SubsetSize(Owing(t, id), Owing(s, id) + if id in a.ids then {a.w} else {});
    assert t.log == s.log && RecordFor(t.rows[id]) == RecordFor(s.rows[id]);
  }

  lemma PublishKeepsDup(cfg: Config, s: State, a: Action, id: int)
    requires a.Publish? && HoldInv(s) && DupInv(s) && Enabled(cfg, s, a) && id in s.rows
    ensures var t := Apply(cfg, s, a); Copies(t, id) + |Owing(t, id)| <= t.rows[id].attempts
  {
    var t := Apply(cfg, s, a);
    var worker := s.workers[a.w];
    var e := worker.batch[0];
    assert t.rows == s.rows;
    assert forall v | v in t.workers && v != a.w :: v in s.workers && t.workers[v] == s.workers[v];
    forall other | Owes(t.workers[a.w], other)
      ensures Owes(worker, other)
    {
    }
    assert Owing(t, id) <= Owing(s, id);
    if e.id == id {
      assert Owes(worker, id);
      assert !Owes(t.workers[a.w], id) by {
        var ids := Ids(worker.batch);
        assert forall i | 0 < i < |ids| :: ids[i] != ids[0];
      }
      assert Owing(t, id) <= Owing(s, id) - {a.w};
      SubsetSize(Owing(t, id), Owing(s, id) - {a.w});
    } else {
      if RecordFor(e) == RecordFor(s.rows[id]) {
        RecordInjective(e.id, e.body, e.createdAt, s.rows[id].id, s.rows[id].body, s.rows[id].createdAt);
      }
      OwingShrinks(s, t, id);
    }
  }

  /** After a mark a worker owes no event that it did not owe before. */
  lemma MarkOwesLess(cfg: Config, s: State, a: Action, id: int)
    requires a.Mark? && Enabled(cfg, s, a)
    ensures Owing(Apply(cfg, s, a), id) <= Owing(s, id)
  {
    var t := Apply(cfg, s, a);
    var batch := s.workers[a.w].batch;
    forall w | w in Owing(t, id)
      ensures w in Owing(s, id)
    {
      if w == a.w {
        var i :| 0 <= i < |batch[1..]| && batch[1..][i].id == id;
        assert batch[i + 1].id == id;
      }
    }
  }

  lemma MarkKeepsDup(cfg: Config, s: State, a: Action, id: int)
    requires a.Mark? && DupInv(s) && Enabled(cfg, s, a) && id in s.rows
    ensures var t := Apply(cfg, s, a); Copies(t, id) + |Owing(t, id)| <= t.rows[id].attempts
  {
    var t := Apply(cfg, s, a);
    MarkOwesLess(cfg, s, a, id);
    OwingShrinks(s, t, id);
    StepMovesForward(cfg, s, a);
    assert t.log == s.log && RecordFor(t.rows[id]) == RecordFor(s.rows[id]);
  }

  lemma StepKeepsDup(cfg: Config, s: State, a: Action)
    requires HoldInv(s) && LogInv(s) && DupInv(s) && Enabled(cfg, s, a)
    ensures DupInv(Apply(cfg, s, a))
  {
    var t := Apply(cfg, s, a);
    forall id | id in t.rows
      ensures Copies(t, id) + |Owing(t, id)| <= t.rows[id].attempts
    {
      match a
      case Create(_, eventId, _, _) =>
        if id == eventId {
          NewRowUnpublished(s, t, id);
        } else {
          OwingShrinks(s, t, id);
        }
      case Fetch(_, _, _, _, _, _) => FetchKeepsDup(cfg, s, a, id);
      case Publish(_, _, _) => PublishKeepsDup(cfg, s, a, id);
      case Mark(_, _, _) => MarkKeepsDup(cfg, s, a, id);
      case _ => OwingShrinks(s, t, id);
    }
  }

  lemma NewRowUnpublished(s: State, t: State, id: int)
    requires HoldInv(s) && LogInv(s) && id !in s.rows && id in t.rows && t.rows[id].id == id
    requires t.log == s.log && t.workers == s.workers
    ensures Copies(t, id) + |Owing(t, id)| == 0
  {
    var e := t.rows[id];
    if RecordFor(e) in s.log {
      var j :| j in s.rows && RecordFor(e) == RecordFor(s.rows[j]);
      RecordInjective(id, e.body, e.createdAt, s.rows[j].id, s.rows[j].body, s.rows[j].createdAt);
    }
    forall w | w in t.workers
      ensures !Owes(t.workers[w], id)
    {
      assert HoldsOk(s.rows, s.log, s.workers[w]);
    }
    assert Owing(t, id) == {};
  }

  // ----- every run -----

  ghost predicate Inv(cfg: Config, s: State) {
    RowsInv(cfg, s) && BornInv(s) && HoldInv(s) && LogInv(s) && DupInv(s)
  }

  lemma {:induction false} RunKeepsInv(cfg: Config, s: State, steps: seq<Action>)
    requires ValidConfig(cfg) && Inv(cfg, s)
    ensures Exec(cfg, s, steps).Some? ==> Inv(cfg, Exec(cfg, s, steps).value)
    decreases |steps|
  {
    if steps != [] && Enabled(cfg, s, steps[0]) {
      StepKeepsRows(cfg, s, steps[0]);
      StepKeepsBorn(cfg, s, steps[0]);
      StepKeepsHolds(cfg, s, steps[0]);
      StepKeepsLog(cfg, s, steps[0]);
      StepKeepsDup(cfg, s, steps[0]);
      RunKeepsInv(cfg, Apply(cfg, s, steps[0]), steps[1..]);
    }
  }

  lemma ContinuesKeepsInv(cfg: Config, s: State, t: State)
    requires ValidConfig(cfg) && Inv(cfg, s) && Continues(cfg, s, t)
    ensures Inv(cfg, t)
  {
    var steps :| Exec(cfg, s, steps) == Some(t);
    RunKeepsInv(cfg, s, steps);
  }

  lemma ReachableInv(cfg: Config, s: State)
    requires ValidConfig(cfg) && Reachable(cfg, s)
    ensures Inv(cfg, s)
  {
    ContinuesKeepsInv(cfg, INITIAL, s);
  }

  // ----- the main results, for every run -----

  /** The row state machine: NEW rows have attempts left, PROCESSING rows are exactly the locked ones,
      PROCESSED rows exactly those with a processing time, and FAILED rows have used up their attempts. */
  lemma RowStateMachine(cfg: Config, s: State, id: int)
    requires ValidConfig(cfg) && Reachable(cfg, s) && id in s.rows
    ensures RowOk(s.rows[id], cfg.maxAttempts)
  {
    ReachableInv(cfg, s);
  }

  /** At most maxAttempts MarkFailed statements ever take effect on one event. */
  lemma RetryBudget(cfg: Config, s: State, id: int)
    requires ValidConfig(cfg) && Reachable(cfg, s) && id in s.rows
    ensures id in s.giveUps && s.giveUps[id] <= cfg.maxAttempts
  {
    ReachableInv(cfg, s);
  }

  /** A worker never publishes an event more often than it was leased, and a PROCESSED event was published. */
  lemma DuplicationBound(cfg: Config, s: State, id: int)
    requires ValidConfig(cfg) && Reachable(cfg, s) && id in s.rows
    ensures Copies(s, id) + |Owing(s, id)| <= s.rows[id].attempts
    ensures s.rows[id].status.Processed? ==> Copies(s, id) >= 1
  {
    ReachableInv(cfg, s);
  }

  /** Every user ever committed has one outbox row, which tells of the user as created, and every row
      belongs to such a user. */
  lemma OneEventPerUser(cfg: Config, s: State)
    requires ValidConfig(cfg) && Reachable(cfg, s)
    ensures forall id | id in s.rows :: TellsOf(s.born, s.rows[id])
    ensures forall u | u in s.born :: exists id :: id in s.rows && IsFor(s.rows[id], u)
    ensures forall i, j, u | i in s.rows && j in s.rows && IsFor(s.rows[i], u) && IsFor(s.rows[j], u) :: i == j
  {
    ReachableInv(cfg, s);
    forall u | u in s.born
      ensures exists id :: id in s.rows && IsFor(s.rows[id], u)
    {
      var id := s.eventOf[u];
      assert id in s.rows && IsFor(s.rows[id], u);
    }
  }
}
