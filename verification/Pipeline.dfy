/**
  The producing half of the outbox pipeline as a step system: any number of creators and workers,
  interleaved statement by statement. The label of a step carries everything the environment
  chooses, so a run is a list of labels and "in every run" means "for every list of labels".
 */
module Pipeline {
  import opened Wrappers
  import opened EventFormat
  import opened OutboxTable

  /** Time is the database's clock; skew bounds how far a worker's clock reading may be from it. */
  datatype Config = Config(
    batchSize: nat, maxAttempts: nat, lockTimeout: int, processTimeout: int, skew: nat)

  predicate ValidConfig(cfg: Config) {
    cfg.batchSize > 0 && cfg.maxAttempts > 0 && cfg.lockTimeout > 0 && cfg.processTimeout > 0
  }

  datatype Registration = Registration(email: string, role: string)

  /** Where a worker stands with the first event of its batch: before the publish call, or between
      the publish call and the mark that follows it. */
  datatype Phase = Ready | Sent | Unsent(reason: string)

  datatype Worker =
    | Idle
    | Started(at: int)
    | Busy(deadline: int, batch: seq<Event>, phase: Phase)

  /** born, eventOf and giveUps are histories: every user ever committed as it was created, the event
      written with it, and how many MarkFailed statements have taken effect on each event. */
  datatype State = State(
    clock: int, born: map<int, Registration>, eventOf: map<int, int>, rows: Rows, log: seq<Record>,
    workers: map<int, Worker>, giveUps: map<int, nat>)

  datatype Action =
    | Tick(to: int)
    | Create(userId: int, eventId: int, user: Registration, createdAt: int)
    | Start(w: int)
    | Fetch(w: int, readAt: int, lockAt: int, skipped: set<int>, ids: seq<int>, answered: bool)
    | Publish(w: int, appended: bool, error: Option<string>)
    | Mark(w: int, runs: bool, at: int)
    | Finish(w: int)
    | Crash(w: int)

  const INITIAL := State(0, map[], map[], map[], [], map[], map[])

  function WorkerOf(s: State, w: int): Worker {
    if w in s.workers then s.workers[w] else Idle
  }

  /** A worker is live while its context has not expired. */
  predicate Live(s: State, w: int) {
    WorkerOf(s, w).Busy? && s.clock <= WorkerOf(s, w).deadline
  }

  ghost predicate Enabled(cfg: Config, s: State, a: Action) {
    match a
    case Tick(to) => s.clock <= to
    case Create(userId, eventId, _, _) => userId !in s.born && eventId !in s.rows
    case Start(w) => WorkerOf(s, w).Idle?
    case Fetch(w, readAt, lockAt, skipped, ids, _) =>
      && WorkerOf(s, w).Started?
      && s.clock <= WorkerOf(s, w).at + cfg.processTimeout
      && WorkerOf(s, w).at <= lockAt <= s.clock
      && WorkerOf(s, w).at - cfg.skew <= readAt <= lockAt + cfg.skew
      && Selects(s.rows, cfg.batchSize, readAt - cfg.lockTimeout, skipped, ids)
    case Publish(w, appended, error) =>
      && WorkerOf(s, w).Busy? && WorkerOf(s, w).phase.Ready? && WorkerOf(s, w).batch != []
      && (error.None? ==> appended)
      && (!Live(s, w) ==> !appended)
    case Mark(w, runs, _) =>
      && WorkerOf(s, w).Busy? && !WorkerOf(s, w).phase.Ready? && WorkerOf(s, w).batch != []
      && (!Live(s, w) ==> !runs)
    case Finish(w) => WorkerOf(s, w).Busy? && WorkerOf(s, w).batch == []
    case Crash(w) => true
  }

  function Fetched(rows: Rows, ids: seq<int>): seq<Event>
    requires forall i | 0 <= i < |ids| :: ids[i] in rows
  {
    seq(|ids|, i requires 0 <= i < |ids| => rows[ids[i]])
  }

  /** A fetch hands out copies of exactly the leased rows. */
  lemma LeasedIds(rows: Rows, limit: nat, cutoff: int, skipped: set<int>, ids: seq<int>, at: int)
    requires Keyed(rows) && Selects(rows, limit, cutoff, skipped, ids)
    ensures forall i | 0 <= i < |ids| :: ids[i] in Leased(rows, ids, at)
    ensures Ids(Fetched(Leased(rows, ids, at), ids)) == ids
  {
    SelectedRows(rows, limit, cutoff, skipped, ids);
    var leased := Leased(rows, ids, at);
    assert forall i | 0 <= i < |ids| :: ids[i] in leased && leased[ids[i]].id == ids[i];
    var events := Fetched(leased, ids);
    assert forall i | 0 <= i < |ids| :: events[i].id == ids[i];
    assert Ids(events) == ids;
  }

  /** The mark that ends the handling of the first event of a batch. */
  function Marked(cfg: Config, rows: Rows, e: Event, phase: Phase, at: int): Rows {
    match phase
    case Ready => rows
    case Sent => MarkedProcessed(rows, e.id, at)
    case Unsent(reason) => MarkedFailed(rows, e.id, reason, cfg.maxAttempts)
  }

  function Counted(s: State, e: Event, phase: Phase): map<int, nat> {
    if phase.Unsent? && Matches(s.rows, e.id) && e.id in s.giveUps
    then s.giveUps[e.id := s.giveUps[e.id] + 1] else s.giveUps
  }

  function Apply(cfg: Config, s: State, a: Action): State
    requires Enabled(cfg, s, a)
  {
    match a
    case Tick(to) => s.(clock := to)
    case Create(userId, eventId, user, createdAt) =>
      s.(born := s.born[userId := user], eventOf := s.eventOf[userId := eventId],
         rows := s.rows[eventId := NewRow(eventId, UserRegisteredBody(userId, user.email, user.role), createdAt)],
         giveUps := s.giveUps[eventId := 0])
    case Start(w) => s.(workers := s.workers[w := Started(s.clock)])
    case Fetch(w, readAt, lockAt, skipped, ids, answered) =>
      var rows := Leased(s.rows, ids, lockAt);
      SelectedRows(s.rows, cfg.batchSize, readAt - cfg.lockTimeout, skipped, ids);
      s.(rows := rows,
         workers := s.workers[w := if answered
                                   then Busy(WorkerOf(s, w).at + cfg.processTimeout, Fetched(rows, ids), Ready)
                                   else Idle])
    case Publish(w, appended, error) =>
      var worker := WorkerOf(s, w);
      s.(log := if appended then s.log + [RecordFor(worker.batch[0])] else s.log,
         workers := s.workers[w := worker.(phase := if error.None? then Sent else Unsent(error.value))])
    case Mark(w, runs, at) =>
      var worker := WorkerOf(s, w);
      s.(rows := if runs then Marked(cfg, s.rows, worker.batch[0], worker.phase, at) else s.rows,
         giveUps := if runs then Counted(s, worker.batch[0], worker.phase) else s.giveUps,
         workers := s.workers[w := worker.(batch := worker.batch[1..], phase := Ready)])
    case Finish(w) => s.(workers := s.workers[w := Idle])
    case Crash(w) => s.(workers := s.workers[w := Idle])
  }

  /** The state a list of steps leads to, if every step of it is enabled when its turn comes. */
  ghost function Exec(cfg: Config, s: State, steps: seq<Action>): Option<State>
    decreases |steps|
  {
    if steps == [] then Some(s)
    else if Enabled(cfg, s, steps[0]) then Exec(cfg, Apply(cfg, s, steps[0]), steps[1..])
    else None
  }

  /** Some steps lead from s to t. */
  ghost predicate Continues(cfg: Config, s: State, t: State) {
    exists steps :: Exec(cfg, s, steps) == Some(t)
  }

  ghost predicate Reachable(cfg: Config, s: State) {
    Continues(cfg, INITIAL, s)
  }

  lemma {:induction false} ExecAppend(cfg: Config, s: State, first: seq<Action>, second: seq<Action>)
    requires Exec(cfg, s, first).Some?
    ensures Exec(cfg, s, first + second) == Exec(cfg, Exec(cfg, s, first).value, second)
    decreases |first|
  {
    if first == [] {
      assert first + second == second;
    } else {
      assert (first + second)[1..] == first[1..] + second;
      ExecAppend(cfg, Apply(cfg, s, first[0]), first[1..], second);
    }
  }

  lemma ReachableInitially(cfg: Config)
    ensures Reachable(cfg, INITIAL)
  {
    assert Exec(cfg, INITIAL, []) == Some(INITIAL);
  }

  lemma ReachableStep(cfg: Config, s: State, a: Action)
    requires Reachable(cfg, s) && Enabled(cfg, s, a)
    ensures Reachable(cfg, Apply(cfg, s, a))
  {
    var t := Continue(cfg, INITIAL, s, a);
  }

  lemma Stays(cfg: Config, s: State)
    ensures Continues(cfg, s, s)
  {
    assert Exec(cfg, s, []) == Some(s);
  }

  lemma ContinuesOn(cfg: Config, s: State, m: State, t: State)
    requires Continues(cfg, s, m) && Continues(cfg, m, t)
    ensures Continues(cfg, s, t)
  {
    var first :| Exec(cfg, s, first) == Some(m);
    var second :| Exec(cfg, m, second) == Some(t);
    ExecAppend(cfg, s, first, second);
  }

  lemma Continue(cfg: Config, s: State, m: State, a: Action) returns (t: State)
    requires Continues(cfg, s, m) && Enabled(cfg, m, a)
    ensures t == Apply(cfg, m, a) && Continues(cfg, s, t)
  {
    t := Apply(cfg, m, a);
    assert Exec(cfg, m, [a]) == Some(t);
    ContinuesOn(cfg, s, m, t);
  }
}
