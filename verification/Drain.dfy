/** What repeated rounds of one worker achieve when its marks take effect: the table drains, and no
    row waits for ever. */
module Drain {
  import opened OutboxTable
  import opened Calls
  import opened OutboxWorker
  import opened Collections
  import Pipeline

  /** One round: rows added since the last one, then the lease and the handling of the batch. */
  datatype Round = Round(added: Rows, cutoff: int, now: int, ids: seq<int>, env: int -> Outcome)

  ghost predicate CanRun(cfg: Pipeline.Config, rows: Rows, r: Round) {
    && r.added.Keys !! rows.Keys
    && Keyed(r.added)
    && (forall id | id in r.added :: r.added[id].status.New?)
    && Selects(rows + r.added, cfg.batchSize, r.cutoff, {}, r.ids)
    && (forall id | id in r.ids :: !r.env(id).mark.Fails?)
  }

  function After(cfg: Pipeline.Config, rows: Rows, r: Round): Rows
    requires forall i | 0 <= i < |r.ids| :: r.ids[i] in rows + r.added
  {
    var leased := Leased(rows + r.added, r.ids, r.now);
    BatchRows(leased, Pipeline.Fetched(leased, r.ids), r.env, cfg.maxAttempts)
  }

  ghost predicate CanRunAll(cfg: Pipeline.Config, rows: Rows, rounds: seq<Round>)
    decreases |rounds|
  {
    rounds != [] ==>
      && CanRun(cfg, rows, rounds[0])
      && (forall i | 0 <= i < |rounds[0].ids| :: rounds[0].ids[i] in rows + rounds[0].added)
      && CanRunAll(cfg, After(cfg, rows, rounds[0]), rounds[1..])
  }

  ghost function AfterAll(cfg: Pipeline.Config, rows: Rows, rounds: seq<Round>): Rows
    requires CanRunAll(cfg, rows, rounds)
    decreases |rounds|
  {
    if rounds == [] then rows else AfterAll(cfg, After(cfg, rows, rounds[0]), rounds[1..])
  }

  // ----- one round, row by row -----

  /** A leased row after its mark. */
  predicate Settled(e: Event, before: Event, maxAttempts: nat) {
    && e.createdAt == before.createdAt
    && (Terminal(e) || (e.status.New? && e.attempts == before.attempts + 1 && e.attempts < maxAttempts))
  }

  lemma {:induction false} BatchKeys(rows: Rows, batch: seq<Event>, env: int -> Outcome, maxAttempts: nat)
    requires Keyed(rows)
    ensures BatchRows(rows, batch, env, maxAttempts).Keys == rows.Keys
    ensures Keyed(BatchRows(rows, batch, env, maxAttempts))
    decreases |batch|
  {
    if batch != [] {
      var next := HandledRows(rows, batch[0], env(batch[0].id), maxAttempts);
      assert next.Keys == rows.Keys;
      BatchKeys(next, batch[1..], env, maxAttempts);
    }
  }

  lemma {:induction false} BatchOutcome(rows: Rows, batch: seq<Event>, env: int -> Outcome, maxAttempts: nat, id: int)
    requires Distinct(Ids(batch)) && id in rows && Keyed(rows)
    requires forall e | e in batch :: Matches(rows, e.id) && !env(e.id).mark.Fails?
    ensures var after := BatchRows(rows, batch, env, maxAttempts);
      && id in after
      && (id !in Ids(batch) ==> after[id] == rows[id])
      && (id in Ids(batch) ==>
            after[id].createdAt == rows[id].createdAt &&
            (Terminal(after[id]) ||
             (after[id].status.New? && after[id].attempts == rows[id].attempts && after[id].attempts < maxAttempts)))
    decreases |batch|
  {
    if batch != [] {
      var next := HandledRows(rows, batch[0], env(batch[0].id), maxAttempts);
      DistinctTail(Ids(batch));
      assert Ids(batch[1..]) == Ids(batch)[1..];
      assert forall e | e in batch[1..] :: e in batch && e.id in Ids(batch[1..]);
      BatchOutcome(next, batch[1..], env, maxAttempts, id);
      if id == batch[0].id {
        assert Ids(batch)[0] == id;
      } else {
        assert next[id] == rows[id];
      }
    }
  }

  lemma RoundKeys(cfg: Pipeline.Config, rows: Rows, r: Round)
    requires Keyed(rows) && CanRun(cfg, rows, r)
    ensures forall i | 0 <= i < |r.ids| :: r.ids[i] in rows + r.added
    ensures After(cfg, rows, r).Keys == (rows + r.added).Keys && Keyed(After(cfg, rows, r))
  {
    var all := rows + r.added;
    SelectedRows(all, cfg.batchSize, r.cutoff, {}, r.ids);
    var leased := Leased(all, r.ids, r.now);
    BatchKeys(leased, Pipeline.Fetched(leased, r.ids), r.env, cfg.maxAttempts);
  }

  lemma RoundOutcome(cfg: Pipeline.Config, rows: Rows, r: Round, id: int)
    requires Keyed(rows) && CanRun(cfg, rows, r) && id in rows + r.added
    ensures forall i | 0 <= i < |r.ids| :: r.ids[i] in rows + r.added
    ensures var all := rows + r.added;
            var after := After(cfg, rows, r);
      && id in after
      && (id in r.ids ==> Settled(after[id], all[id], cfg.maxAttempts))
      && (id !in r.ids ==> after[id] == all[id])
  {
    var all := rows + r.added;
    SelectedRows(all, cfg.batchSize, r.cutoff, {}, r.ids);
    Pipeline.LeasedIds(all, cfg.batchSize, r.cutoff, {}, r.ids, r.now);
    var leased := Leased(all, r.ids, r.now);
    var batch := Pipeline.Fetched(leased, r.ids);
    forall e | e in batch
      ensures Matches(leased, e.id) && !r.env(e.id).mark.Fails?
    {
      assert e.id in Ids(batch);
    }
    BatchOutcome(leased, batch, r.env, cfg.maxAttempts, id);
  }

  // ----- the measure -----

  predicate Pending(e: Event) {
    e.status.New? || e.status.Processing?
  }

  /** How many more rounds a pending row can take part in. */
  function Weight(e: Event, maxAttempts: nat): nat {
    if maxAttempts > e.attempts then maxAttempts - e.attempts else 1
  }

  /** The weight of each id: zero unless it names a pending row. */
  function WeightOf(rows: Rows, maxAttempts: nat): int -> nat {
    id => if id in rows && Pending(rows[id]) then Weight(rows[id], maxAttempts) else 0
  }

  /** A round never raises the weight of the watched rows, and lowers it when it takes one of them,
      including rows whose attempts have passed maxAttempts through reclaims. */
  lemma RoundLowers(cfg: Pipeline.Config, rows: Rows, r: Round, watched: set<int>)
    requires Keyed(rows) && CanRun(cfg, rows, r) && watched <= rows.Keys
    ensures forall i | 0 <= i < |r.ids| :: r.ids[i] in rows + r.added
    ensures Sum(watched, WeightOf(After(cfg, rows, r), cfg.maxAttempts)) <= Sum(watched, WeightOf(rows, cfg.maxAttempts))
    ensures (exists id :: id in r.ids && id in watched) ==>
              Sum(watched, WeightOf(After(cfg, rows, r), cfg.maxAttempts)) < Sum(watched, WeightOf(rows, cfg.maxAttempts))
  {
    SelectedRows(rows + r.added, cfg.batchSize, r.cutoff, {}, r.ids);
    var low := WeightOf(After(cfg, rows, r), cfg.maxAttempts);
    var high := WeightOf(rows, cfg.maxAttempts);
    forall id | id in watched
      ensures low(id) <= high(id)
      ensures id in r.ids ==> low(id) < high(id)
    {
      RoundOutcome(cfg, rows, r, id);
    }
    SumMonotone(watched, low, high);
    if id :| id in r.ids && id in watched {
      SumStrict(watched, low, high, id);
    }
  }

  // ----- draining -----

  /** All locks are older than every round's cutoff, and no rows are added. */
  ghost predicate Unlocked(rows: Rows, rounds: seq<Round>) {
    && (forall r | r in rounds :: r.added == map[])
    && (forall r, id | r in rounds && id in rows && rows[id].status.Processing? ::
          rows[id].lockedAt.Some? && rows[id].lockedAt.value < r.cutoff)
  }

  lemma NonEmptyRound(cfg: Pipeline.Config, rows: Rows, r: Round, id: int)
    requires cfg.batchSize > 0 && CanRun(cfg, rows, r) && Unlocked(rows, [r])
    requires id in rows && Pending(rows[id])
    ensures r.ids != []
  {
    assert r in [r];
    assert rows + r.added == rows;
    assert Eligible(rows[id], r.cutoff);
  }

  lemma RoundKeepsUnlocked(cfg: Pipeline.Config, rows: Rows, rounds: seq<Round>)
    requires rounds != [] && Keyed(rows) && CanRun(cfg, rows, rounds[0]) && Unlocked(rows, rounds)
    ensures forall i | 0 <= i < |rounds[0].ids| :: rounds[0].ids[i] in rows + rounds[0].added
    ensures var after := After(cfg, rows, rounds[0]);
            after.Keys == rows.Keys && Keyed(after) && Unlocked(after, rounds[1..])
  {
    var r := rounds[0];
    RoundKeys(cfg, rows, r);
    forall id | id in rows
      ensures After(cfg, rows, r)[id].status.Processing? ==> After(cfg, rows, r)[id] == rows[id]
    {
      RoundOutcome(cfg, rows, r, id);
    }
    assert r in rounds && rows + r.added == rows;
  }

  /** Enough rounds leave every row PROCESSED or FAILED: the sum of the weights is enough. */
  lemma {:induction false} Drains(cfg: Pipeline.Config, rows: Rows, rounds: seq<Round>)
    requires cfg.batchSize > 0 && Keyed(rows)
    requires CanRunAll(cfg, rows, rounds) && Unlocked(rows, rounds)
    requires |rounds| >= Sum(rows.Keys, WeightOf(rows, cfg.maxAttempts))
    ensures forall id | id in rows :: id in AfterAll(cfg, rows, rounds) && Terminal(AfterAll(cfg, rows, rounds)[id])
    decreases |rounds|
  {
    var weight := WeightOf(rows, cfg.maxAttempts);
    if rounds == [] {
      forall id | id in rows
        ensures Terminal(rows[id])
      {
        SumRemove(rows.Keys, weight, id);
      }
    } else {
      var after := After(cfg, rows, rounds[0]);
      RoundKeepsUnlocked(cfg, rows, rounds);
      RoundLowers(cfg, rows, rounds[0], rows.Keys);
      if Sum(rows.Keys, weight) > 0 {
        var id := SumPositive(rows.Keys, weight);
        assert rounds[0] in rounds;
        NonEmptyRound(cfg, rows, rounds[0], id);
        var first := rounds[0].ids[0];
        assert rows + rounds[0].added == rows;
        assert first in rounds[0].ids && first in rows.Keys;
      }
      Drains(cfg, after, rounds[1..]);
    }
  }

  // ----- no starvation -----

  /** The rows that can be served before x: pending and created no later. */
  function Ahead(rows: Rows, x: int): set<int>
    requires x in rows
  {
    set id | id in rows && id != x && Pending(rows[id]) && rows[id].createdAt <= rows[x].createdAt
  }

  ghost predicate AddsYounger(rows: Rows, x: int, rounds: seq<Round>)
    requires x in rows
  {
    forall r, id | r in rounds && id in r.added :: r.added[id].createdAt > rows[x].createdAt
  }

  /** A round that passes over x is full of rows ahead of x. */
  lemma PassedOver(cfg: Pipeline.Config, rows: Rows, r: Round, x: int)
    requires cfg.batchSize > 0 && CanRun(cfg, rows, r)
    requires x in rows && rows[x].status.New? && x !in r.ids
    requires AddsYounger(rows, x, [r])
    ensures r.ids != [] && forall id | id in r.ids :: id in Ahead(rows, x)
  {
    var all := rows + r.added;
    assert r in [r];
    assert all[x] == rows[x] && Eligible(all[x], r.cutoff);
    assert |r.ids| == cfg.batchSize;
    forall id | id in r.ids
      ensures id in Ahead(rows, x)
    {
      assert all[id].createdAt <= all[x].createdAt;
    }
  }

  lemma {:induction false} ServedWithinWeight(cfg: Pipeline.Config, rows: Rows, rounds: seq<Round>, x: int,
                                             watched: set<int>)
    requires cfg.batchSize > 0 && Keyed(rows) && CanRunAll(cfg, rows, rounds)
    requires x in rows && rows[x].status.New? && AddsYounger(rows, x, rounds)
    requires Ahead(rows, x) <= watched <= rows.Keys
    requires |rounds| > Sum(watched, WeightOf(rows, cfg.maxAttempts))
    ensures exists i :: 0 <= i < |rounds| && x in rounds[i].ids
    decreases |rounds|
  {
    var r := rounds[0];
    if x !in r.ids {
      assert r in rounds;
      assert AddsYounger(rows, x, [r]);
      PassedOver(cfg, rows, r, x);
      var first := r.ids[0];
      assert first in r.ids;
      assert first in Ahead(rows, x);
      RoundLowers(cfg, rows, r, watched);
      RoundKeys(cfg, rows, r);
      var after := After(cfg, rows, r);
      RoundOutcome(cfg, rows, r, x);
      forall id | id in Ahead(after, x)
        ensures id in Ahead(rows, x)
      {
        RoundOutcome(cfg, rows, r, id);
      }
      ServedWithinWeight(cfg, after, rounds[1..], x, watched);
      var i :| 0 <= i < |rounds[1..]| && x in rounds[1..][i].ids;
      assert x in rounds[i + 1].ids;
    }
  }

  /** A NEW row is leased within k * maxAttempts + 1 rounds, k being the number of other pending rows
      created no later, whatever is added behind it and however publishing goes. */
  lemma {:induction false} NoStarvation(cfg: Pipeline.Config, rows: Rows, rounds: seq<Round>, x: int)
    requires cfg.batchSize > 0 && cfg.maxAttempts > 0 && Keyed(rows) && CanRunAll(cfg, rows, rounds)
    requires x in rows && rows[x].status.New? && AddsYounger(rows, x, rounds)
    requires |rounds| > |Ahead(rows, x)| * cfg.maxAttempts
    ensures exists i :: 0 <= i < |rounds| && x in rounds[i].ids
  {
    SumBounded(Ahead(rows, x), WeightOf(rows, cfg.maxAttempts), cfg.maxAttempts);
    ServedWithinWeight(cfg, rows, rounds, x, Ahead(rows, x));
  }

  // ----- the worker's loop -----

  lemma {:induction false} RunOneMore(cfg: Pipeline.Config, rows: Rows, rounds: seq<Round>, r: Round)
    requires CanRunAll(cfg, rows, rounds) && CanRun(cfg, AfterAll(cfg, rows, rounds), r)
    ensures forall i | 0 <= i < |r.ids| :: r.ids[i] in AfterAll(cfg, rows, rounds) + r.added
    ensures CanRunAll(cfg, rows, rounds + [r])
    ensures AfterAll(cfg, rows, rounds + [r]) == After(cfg, AfterAll(cfg, rows, rounds), r)
    decreases |rounds|
  {
    SelectedRows(AfterAll(cfg, rows, rounds) + r.added, cfg.batchSize, r.cutoff, {}, r.ids);
    if rounds == [] {
      assert [r][1..] == [];
      assert CanRunAll(cfg, After(cfg, rows, r), []);
    } else {
      assert (rounds + [r])[1..] == rounds[1..] + [r];
      RunOneMore(cfg, After(cfg, rows, rounds[0]), rounds[1..], r);
    }
  }

  ghost predicate IsRound(cfg: Pipeline.Config, before: Rows, r: Round, after: Rows) {
    && CanRun(cfg, before, r)
    && (forall i | 0 <= i < |r.ids| :: r.ids[i] in before + r.added)
    && after == After(cfg, before, r)
  }

  /** What ProcessOnce promises is one round. */
  lemma OnceIsRound(cfg: Pipeline.Config, before: Rows, batch: seq<Event>, cutoff: int, now: int, env: int -> Outcome)
    requires Keyed(before) && Selects(before, cfg.batchSize, cutoff, {}, Ids(batch))
    requires forall e | e in batch :: e.id in before && e == LeasedRow(before[e.id], now)
    requires forall id :: !env(id).mark.Fails?
    ensures IsRound(cfg, before, Round(map[], cutoff, now, Ids(batch), env),
                    BatchRows(Leased(before, Ids(batch), now), batch, env, cfg.maxAttempts))
  {
    var r := Round(map[], cutoff, now, Ids(batch), env);
    assert before + r.added == before;
    FetchedBatch(before, batch, now);
  }

  method Tick(worker: Worker, now: int, env: int -> Outcome) returns (ghost r: Round)
    requires worker.store.Valid() && worker.cfg.batchSize > 0
    requires forall id :: Possible(env(id)) && !env(id).mark.Fails?
    modifies worker.store`rows, worker.publisher
    ensures worker.store.Valid()
    ensures r.added == map[] && r.cutoff == now - worker.cfg.lockTimeout
    ensures IsRound(worker.cfg, old(worker.store.rows), r, worker.store.rows)
  {
    ghost var before := worker.store.rows;
    var _, batch := worker.ProcessOnce(now, now, {}, Answers, env);
    var cutoff := now - worker.cfg.lockTimeout;
    r := Round(map[], cutoff, now, Ids(batch), env);
    assert IsRound(worker.cfg, before, r, worker.store.rows) by {
      OnceIsRound(worker.cfg, before, batch, cutoff, now, env);
    }
  }

  /** The worker's endless loop, stopped after a number of ticks: its rounds in order. */
  method RunTicks(worker: Worker, ticks: nat, clock: nat -> int, env: nat -> (int -> Outcome))
    returns (ghost rounds: seq<Round>)
    requires worker.store.Valid() && worker.cfg.batchSize > 0
    requires forall i, id :: Possible(env(i)(id)) && !env(i)(id).mark.Fails?
    modifies worker.store`rows, worker.publisher
    ensures worker.store.Valid() && |rounds| == ticks
    ensures CanRunAll(worker.cfg, old(worker.store.rows), rounds)
    ensures worker.store.rows == AfterAll(worker.cfg, old(worker.store.rows), rounds)
    ensures forall i | 0 <= i < ticks ::
              rounds[i].added == map[] && rounds[i].cutoff == clock(i) - worker.cfg.lockTimeout
  {
    var cfg := worker.cfg;
    ghost var start := worker.store.rows;
    rounds := [];
    for i := 0 to ticks
      invariant worker.store.Valid() && |rounds| == i
      invariant CanRunAll(cfg, start, rounds)
      invariant AfterAll(cfg, start, rounds) == worker.store.rows
      invariant forall j | 0 <= j < i :: rounds[j].added == map[] && rounds[j].cutoff == clock(j) - cfg.lockTimeout
    {
      ghost var r := Tick(worker, clock(i), env(i));
      RunOneMore(cfg, start, rounds, r);
      rounds := rounds + [r];
    }
  }

  /** With marks that take effect and every earlier lock expired, as many ticks as the pending rows weigh
      leave nothing pending. */
  method RunUntilDrained(worker: Worker, ticks: nat, clock: nat -> int, env: nat -> (int -> Outcome))
    requires worker.store.Valid() && worker.cfg.batchSize > 0
    requires forall i, id :: Possible(env(i)(id)) && !env(i)(id).mark.Fails?
    requires forall i: nat, id | i < ticks && id in worker.store.rows && worker.store.rows[id].status.Processing? ::
               worker.store.rows[id].lockedAt.Some? &&
               worker.store.rows[id].lockedAt.value < clock(i) - worker.cfg.lockTimeout
    requires ticks >= Sum(worker.store.rows.Keys, WeightOf(worker.store.rows, worker.cfg.maxAttempts))
    modifies worker.store`rows, worker.publisher
    ensures forall id | id in old(worker.store.rows) :: id in worker.store.rows && Terminal(worker.store.rows[id])
  {
    ghost var start := worker.store.rows;
    ghost var rounds := RunTicks(worker, ticks, clock, env);
    assert Unlocked(start, rounds);
    Drains(worker.cfg, start, rounds);
  }
}
