/** When a lease keeps two workers off the same event, and what leases do not bound. */
module Leases {
  import opened Wrappers
  import opened OutboxTable
  import opened Pipeline
  import opened PipelineInvariants

  ghost predicate Holds(worker: Worker, id: int) {
    worker.Busy? && id in Ids(worker.batch)
  }

  /** No event is unfinished in the batches of two live workers. */
  ghost predicate Exclusive(s: State) {
    forall v, w, id | Live(s, v) && Live(s, w) && Holds(WorkerOf(s, v), id) && Holds(WorkerOf(s, w), id) :: v == w
  }

  /** A live worker's events are PROCESSING, and its context ends a process timeout after their lock at the latest. */
  ghost predicate Guarded(cfg: Config, s: State, w: int) {
    Live(s, w) ==>
      forall id | Holds(WorkerOf(s, w), id) ::
        Matches(s.rows, id) && s.rows[id].lockedAt.Some? &&
        WorkerOf(s, w).deadline <= s.rows[id].lockedAt.value + cfg.processTimeout
  }

  ghost predicate LeaseInv(cfg: Config, s: State) {
    && HoldInv(s)
    && Exclusive(s)
    && (forall w :: Guarded(cfg, s, w))
    && (forall w | w in s.workers && s.workers[w].Started? :: s.workers[w].at <= s.clock)
  }

  /** A lease outlives its worker's context on every clock. */
  predicate Sufficient(cfg: Config) {
    cfg.processTimeout + cfg.skew <= cfg.lockTimeout
  }

  /** A lease never takes an event away from a live worker. */
  lemma FetchSparesLive(cfg: Config, s: State, a: Action, w: int, id: int)
    requires Sufficient(cfg)
    requires LeaseInv(cfg, s) && a.Fetch? && Enabled(cfg, s, a)
    requires Live(s, w) && Holds(WorkerOf(s, w), id)
    ensures id !in a.ids
  {
    assert Guarded(cfg, s, w);
  }

  lemma FetchKeepsLease(cfg: Config, s: State, a: Action)
    requires Sufficient(cfg)
    requires LeaseInv(cfg, s) && a.Fetch? && Enabled(cfg, s, a)
    ensures Exclusive(Apply(cfg, s, a)) && forall w :: Guarded(cfg, Apply(cfg, s, a), w)
  {
    var t := Apply(cfg, s, a);
    LeasedIds(s.rows, cfg.batchSize, a.readAt - cfg.lockTimeout, a.skipped, a.ids, a.lockAt);
    forall w | w != a.w && Live(t, w)
      ensures Live(s, w) && WorkerOf(t, w) == WorkerOf(s, w)
      ensures forall id | Holds(WorkerOf(t, w), id) :: id !in a.ids
    {
      forall id | Holds(WorkerOf(t, w), id)
        ensures id !in a.ids
      {
        FetchSparesLive(cfg, s, a, w, id);
      }
    }
    forall w
      ensures Guarded(cfg, t, w)
    {
      assert Guarded(cfg, s, w);
    }
  }

  lemma MarkKeepsLease(cfg: Config, s: State, a: Action)
    requires LeaseInv(cfg, s) && a.Mark? && Enabled(cfg, s, a)
    ensures Exclusive(Apply(cfg, s, a)) && forall w :: Guarded(cfg, Apply(cfg, s, a), w)
  {
    var t := Apply(cfg, s, a);
    var batch := WorkerOf(s, a.w).batch;
    DistinctTail(Ids(batch));
    assert Ids(batch[1..]) == Ids(batch)[1..];
    forall w | Live(t, w)
      ensures Live(s, w)
      ensures forall id | Holds(WorkerOf(t, w), id) :: Holds(WorkerOf(s, w), id)
      ensures forall id | Holds(WorkerOf(t, w), id) && a.runs :: id != batch[0].id
    {
      assert Holds(WorkerOf(s, a.w), batch[0].id);
    }
    forall w
      ensures Guarded(cfg, t, w)
    {
      assert Guarded(cfg, s, w);
    }
  }

  lemma OtherStepKeepsLease(cfg: Config, s: State, a: Action)
    requires LeaseInv(cfg, s) && !a.Fetch? && !a.Mark? && Enabled(cfg, s, a)
    ensures Exclusive(Apply(cfg, s, a)) && forall w :: Guarded(cfg, Apply(cfg, s, a), w)
  {
    var t := Apply(cfg, s, a);
    forall w | Live(t, w)
      ensures Live(s, w) && WorkerOf(t, w).deadline == WorkerOf(s, w).deadline
      ensures WorkerOf(t, w).batch == WorkerOf(s, w).batch
    {
    }
    forall w
      ensures Guarded(cfg, t, w)
    {
      assert Guarded(cfg, s, w);
    }
  }

  lemma StepKeepsLease(cfg: Config, s: State, a: Action)
    requires Sufficient(cfg)
    requires LeaseInv(cfg, s) && Enabled(cfg, s, a)
    ensures LeaseInv(cfg, Apply(cfg, s, a))
  {
    StepKeepsHolds(cfg, s, a);
    StepMovesForward(cfg, s, a);
    match a
    case Fetch(_, _, _, _, _, _) => FetchKeepsLease(cfg, s, a);
    case Mark(_, _, _) => MarkKeepsLease(cfg, s, a);
    case _ => OtherStepKeepsLease(cfg, s, a);
  }

  lemma {:induction false} RunKeepsLease(cfg: Config, s: State, steps: seq<Action>)
    requires Sufficient(cfg) && LeaseInv(cfg, s)
    ensures Exec(cfg, s, steps).Some? ==> LeaseInv(cfg, Exec(cfg, s, steps).value)
    decreases |steps|
  {
    if steps != [] && Enabled(cfg, s, steps[0]) {
      StepKeepsLease(cfg, s, steps[0]);
      RunKeepsLease(cfg, Apply(cfg, s, steps[0]), steps[1..]);
    }
  }

  lemma ReachableLease(cfg: Config, s: State)
    requires Sufficient(cfg) && Reachable(cfg, s)
    ensures LeaseInv(cfg, s)
  {
    var steps :| Exec(cfg, INITIAL, steps) == Some(s);
    RunKeepsLease(cfg, INITIAL, steps);
  }

  /** A mark that runs before its worker's deadline always finds its row PROCESSING: the branch that
      reports zero rows is never taken. */
  lemma MarkNeverMisses(cfg: Config, s: State, a: Action)
    requires Sufficient(cfg) && Reachable(cfg, s)
    requires a.Mark? && a.runs && Enabled(cfg, s, a)
    ensures Matches(s.rows, WorkerOf(s, a.w).batch[0].id)
  {
    ReachableLease(cfg, s);
    assert Guarded(cfg, s, a.w);
    assert Ids(WorkerOf(s, a.w).batch)[0] == WorkerOf(s, a.w).batch[0].id;
    assert Holds(WorkerOf(s, a.w), WorkerOf(s, a.w).batch[0].id);
  }

  // ----- runs that break what the code does not promise -----

  const ALICE := Registration("alice@example.com", "USER")

  ghost predicate OneRow(s: State) {
    s.rows.Keys == {1} && s.rows[1].id == 1
  }

  lemma OneRowSelected(cfg: Config, s: State, cutoff: int)
    requires ValidConfig(cfg) && OneRow(s) && Eligible(s.rows[1], cutoff)
    ensures Selects(s.rows, cfg.batchSize, cutoff, {}, [1])
  {
  }

  /** One event, leased at time 0 by worker 10. */
  lemma FirstLease(cfg: Config) returns (s: State)
    requires ValidConfig(cfg)
    ensures Reachable(cfg, s) && OneRow(s) && s.clock == 0
    ensures s.rows[1].status.Processing? && s.rows[1].lockedAt == Some(0)
    ensures Live(s, 10) && WorkerOf(s, 10).deadline == cfg.processTimeout && Holds(WorkerOf(s, 10), 1)
    ensures s.workers.Keys == {10} && s.log == [] && s.rows[1].attempts == 1
    ensures WorkerOf(s, 10).batch == [s.rows[1]] && WorkerOf(s, 10).phase.Ready?
  {
    ReachableInitially(cfg);
    var create := Create(1, 1, ALICE, 0);
    var s1 := Apply(cfg, INITIAL, create);
    ReachableStep(cfg, INITIAL, create);
    var s2 := Apply(cfg, s1, Start(10));
    ReachableStep(cfg, s1, Start(10));
    OneRowSelected(cfg, s2, 0 - cfg.lockTimeout);
    var fetch := Fetch(10, 0, 0, {}, [1], true);
    s := Apply(cfg, s2, fetch);
    ReachableStep(cfg, s2, fetch);
    assert Ids(WorkerOf(s, 10).batch)[0] == 1;
  }

  /** With a lock timeout too short for that, a worker whose clock is ahead leases the event while the first
      worker is still live. */
  lemma LeaseStolen(cfg: Config) returns (s: State)
    requires ValidConfig(cfg) && !Sufficient(cfg)
    ensures Reachable(cfg, s) && !Exclusive(s)
  {
    var s3 := FirstLease(cfg);
    var now := cfg.processTimeout;
    var s4 := Apply(cfg, s3, Tick(now));
    ReachableStep(cfg, s3, Tick(now));
    var s5 := Apply(cfg, s4, Start(20));
    ReachableStep(cfg, s4, Start(20));
    OneRowSelected(cfg, s5, now + cfg.skew - cfg.lockTimeout);
    var steal := Fetch(20, now + cfg.skew, now, {}, [1], true);
    s := Apply(cfg, s5, steal);
    ReachableStep(cfg, s5, steal);
    assert Ids(WorkerOf(s, 20).batch)[0] == 1;
    assert Holds(WorkerOf(s, 10), 1) && Holds(WorkerOf(s, 20), 1);
  }

  /** Leases exclude in every run exactly when the process timeout and the skew of the clocks together are at
      most the lock timeout; the configuration does not check that. */
  lemma LeaseExclusionIff(cfg: Config)
    requires ValidConfig(cfg)
    ensures (forall s | Reachable(cfg, s) :: Exclusive(s)) <==> cfg.processTimeout + cfg.skew <= cfg.lockTimeout
  {
    if Sufficient(cfg) {
      forall s | Reachable(cfg, s)
        ensures Exclusive(s)
      {
        ReachableLease(cfg, s);
      }
    } else {
      var s := LeaseStolen(cfg);
    }
  }

  /** Attempts are not bounded by maxAttempts: a worker that crashes after every lease raises them for ever. */
  lemma {:induction false} AttemptsUnbounded(cfg: Config, n: nat) returns (s: State)
    requires ValidConfig(cfg)
    ensures Reachable(cfg, s) && OneRow(s) && s.rows[1].attempts == n && s.giveUps == map[1 := 0]
    ensures WorkerOf(s, 10).Idle? && Eligible(s.rows[1], s.clock - cfg.lockTimeout)
  {
    if n == 0 {
      ReachableInitially(cfg);
      var create := Create(1, 1, ALICE, 0);
      ReachableStep(cfg, INITIAL, create);
      s := Apply(cfg, INITIAL, create);
    } else {
      var s0 := AttemptsUnbounded(cfg, n - 1);
      var s1 := Apply(cfg, s0, Start(10));
      ReachableStep(cfg, s0, Start(10));
      OneRowSelected(cfg, s1, s1.clock - cfg.lockTimeout);
      var fetch := Fetch(10, s1.clock, s1.clock, {}, [1], true);
      var s2 := Apply(cfg, s1, fetch);
      ReachableStep(cfg, s1, fetch);
      var s3 := Apply(cfg, s2, Crash(10));
      ReachableStep(cfg, s2, Crash(10));
      var tick := Tick(s3.clock + cfg.lockTimeout + 1);
      s := Apply(cfg, s3, tick);
      ReachableStep(cfg, s3, tick);
    }
  }
}
