/** The worker's round: lease a batch, then publish and mark its events one after the other. */
module OutboxWorker {
  import opened Wrappers
  import opened EventFormat
  import opened OutboxTable
  import opened OutboxRepository
  import opened Calls
  import Decimal
  import Pipeline

  /** What the environment does to the two calls made for one event. A publish call may append its
      record and still report an error; a call past the deadline does nothing and reports an error. */
  datatype Outcome = Outcome(appended: bool, error: Option<string>, mark: Call, at: int)

  predicate Possible(o: Outcome) {
    o.error.None? ==> o.appended
  }

  /** What the mark that fits the outcome of its publish call does to a PROCESSING row, column by column. */
  predicate MarkedAs(before: Event, after: Event, o: Outcome, maxAttempts: nat) {
    if o.mark.Fails? then after == before
    else if o.error.None?
      then after == before.(status := Processed, processedAt := Some(o.at), lockedAt := None, lastError := None)
    else after == before.(status := if before.attempts < maxAttempts then New else Failed,
                          lockedAt := None, lastError := o.error)
  }

  /** The rows and the log after one event has been handled. */
  function HandledRows(rows: Rows, e: Event, o: Outcome, maxAttempts: nat): Rows {
    if o.mark.Fails? then rows
    else if o.error.None? then MarkedProcessed(rows, e.id, o.at)
    else MarkedFailed(rows, e.id, o.error.value, maxAttempts)
  }

  function HandledLog(log: seq<Record>, e: Event, o: Outcome): seq<Record> {
    if o.appended then log + [RecordFor(e)] else log
  }

  function BatchRows(rows: Rows, batch: seq<Event>, env: int -> Outcome, maxAttempts: nat): Rows {
    if batch == [] then rows
    else BatchRows(HandledRows(rows, batch[0], env(batch[0].id), maxAttempts), batch[1..], env, maxAttempts)
  }

  function BatchLog(log: seq<Record>, batch: seq<Event>, env: int -> Outcome): seq<Record>
    decreases |batch|
  {
    if batch == [] then log
    else BatchLog(HandledLog(log, batch[0], env(batch[0].id)), batch[1..], env)
  }

  lemma {:induction false} BatchRowsLast(rows: Rows, batch: seq<Event>, env: int -> Outcome, maxAttempts: nat)
    requires batch != []
    ensures var n := |batch| - 1;
            BatchRows(rows, batch, env, maxAttempts) ==
            HandledRows(BatchRows(rows, batch[..n], env, maxAttempts), batch[n], env(batch[n].id), maxAttempts)
  {
    var n := |batch| - 1;
    if n > 0 {
      var next := HandledRows(rows, batch[0], env(batch[0].id), maxAttempts);
      BatchRowsLast(next, batch[1..], env, maxAttempts);
      assert batch[1..][..n - 1] == batch[..n][1..];
    }
  }

  lemma {:induction false} BatchLogLast(log: seq<Record>, batch: seq<Event>, env: int -> Outcome)
    requires batch != []
    ensures var n := |batch| - 1;
            BatchLog(log, batch, env) == HandledLog(BatchLog(log, batch[..n], env), batch[n], env(batch[n].id))
    decreases |batch|
  {
    var n := |batch| - 1;
    if n > 0 {
      BatchLogLast(HandledLog(log, batch[0], env(batch[0].id)), batch[1..], env);
      assert batch[1..][..n - 1] == batch[..n][1..];
    }
  }

  /** Whatever happens to the others, each PROCESSING row whose event is in the batch gets the mark of its own
      outcome, and every other row stays as it is. */
  lemma {:induction false} BatchByRow(rows: Rows, batch: seq<Event>, env: int -> Outcome, maxAttempts: nat, id: int)
    requires Distinct(Ids(batch)) && id in rows
    ensures id in BatchRows(rows, batch, env, maxAttempts)
    ensures if id in Ids(batch) && rows[id].status == Processing
            then MarkedAs(rows[id], BatchRows(rows, batch, env, maxAttempts)[id], env(id), maxAttempts)
            else BatchRows(rows, batch, env, maxAttempts)[id] == rows[id]
    decreases |batch|
  {
    if batch != [] {
      DistinctTail(Ids(batch));
      assert Ids(batch[1..]) == Ids(batch)[1..] && Ids(batch)[0] == batch[0].id;
      BatchByRow(HandledRows(rows, batch[0], env(batch[0].id), maxAttempts), batch[1..], env, maxAttempts, id);
    }
  }

  /** The record of an event, field by field: the id as its numeral, the columns, and the time of creation. */
  predicate Carries(r: Record, e: Event) {
    && r.key == e.body.aggregateType + ":" + e.body.aggregateId
    && r.value == e.body.payload && r.timestamp == e.createdAt
    && |r.headers| == 7
    && r.headers[0].key == "event_id"
    && Decimal.IsNumeral(r.headers[0].value) && Decimal.ParseInt(r.headers[0].value) == e.id
    && r.headers[1..] == [
         Header("event_type", e.body.eventType), Header("aggregate_type", e.body.aggregateType),
         Header("aggregate_id", e.body.aggregateId), Header("content_type", e.body.contentType),
         Header("proto_message", e.body.protoMessage), Header("event_version", e.body.eventVersion)]
  }

  class KafkaPublisher {
    var log: seq<Record>

    constructor ()
      ensures log == []
    {
      log := [];
    }

    method Publish(event: Event, outcome: Outcome) returns (error: Option<string>)
      requires Possible(outcome)
      modifies this
      ensures log == HandledLog(old(log), event, outcome)
      ensures if outcome.appended
              then |log| == |old(log)| + 1 && log[..|old(log)|] == old(log) && Carries(log[|old(log)|], event)
              else log == old(log)
      ensures error == outcome.error
    {
      Decimal.FormatParse(event.id);
      var body := event.body;
      var record := RecordOf(event.id, body, event.createdAt);
      if outcome.appended {
        log := log + [record];
      }
      error := outcome.error;
    }
  }

  class Worker {
    const store: PostgresRepository
    const publisher: KafkaPublisher
    const cfg: Pipeline.Config

    constructor (store: PostgresRepository, publisher: KafkaPublisher, cfg: Pipeline.Config)
      ensures this.store == store && this.publisher == publisher && this.cfg == cfg
    {
      this.store, this.publisher, this.cfg := store, publisher, cfg;
    }

    method ProcessEvent(event: Event, outcome: Outcome) returns (error: bool)
      requires store.Valid() && Possible(outcome)
      modifies store`rows, publisher
      ensures store.Valid()
      ensures store.rows == HandledRows(old(store.rows), event, outcome, cfg.maxAttempts)
      ensures publisher.log == HandledLog(old(publisher.log), event, outcome)
      ensures !error <==> outcome.error.None? && outcome.mark.Answers? && Matches(old(store.rows), event.id)
      ensures forall id | id in old(store.rows) ::
                && id in store.rows
                && if id == event.id && old(store.rows)[id].status == Processing
                   then MarkedAs(old(store.rows)[id], store.rows[id], outcome, cfg.maxAttempts)
                   else store.rows[id] == old(store.rows)[id]
    {
      var failure := publisher.Publish(event, outcome);
      if failure.Some? {
        var _ := store.MarkFailed(event.id, failure.value, cfg.maxAttempts, outcome.mark);
        return true;
      }
      var markError := store.MarkProcessed(event.id, outcome.at, outcome.mark);
      error := markError.Some?;
    }

    /** One round. The batch is the lease's answer; every event of it is handled, whatever happens to
        the others. */
    method ProcessOnce(clientNow: int, now: int, skipped: set<int>, fetch: Call, env: int -> Outcome)
      returns (error: Option<StoreError>, batch: seq<Event>)
      requires store.Valid() && cfg.batchSize > 0
      requires forall id :: Possible(env(id))
      modifies store`rows, publisher
      ensures store.Valid()
      ensures error.None? <==> fetch.Answers?
      ensures error.Some? ==> batch == [] && publisher.log == old(publisher.log)
      ensures fetch.Fails? ==> store.rows == old(store.rows)
      ensures fetch.AnswerLost? ==>
                exists ids :: Selects(old(store.rows), cfg.batchSize, clientNow - cfg.lockTimeout, skipped, ids) &&
                              store.rows == Leased(old(store.rows), ids, now)
      ensures fetch.Answers? ==>
                && Selects(old(store.rows), cfg.batchSize, clientNow - cfg.lockTimeout, skipped, Ids(batch))
                && (forall e | e in batch :: e.id in old(store.rows) && e == LeasedRow(old(store.rows)[e.id], now))
                && store.rows == BatchRows(Leased(old(store.rows), Ids(batch), now), batch, env, cfg.maxAttempts)
                && publisher.log == BatchLog(old(publisher.log), batch, env)
    {
      var fetched := store.FetchBatch(cfg.batchSize, cfg.lockTimeout, clientNow, now, skipped, fetch);
      if fetched.Err? {
        return Some(fetched.error), [];
      }
      batch := fetched.value;
      forall e | e in batch
        ensures e.id in old(store.rows) && e == LeasedRow(old(store.rows)[e.id], now)
      {
        var i :| 0 <= i < |batch| && batch[i] == e;
        assert Ids(batch)[i] == e.id;
      }
      ghost var leased := store.rows;
      for i := 0 to |batch|
        invariant store.Valid()
        invariant store.rows == BatchRows(leased, batch[..i], env, cfg.maxAttempts)
        invariant publisher.log == BatchLog(old(publisher.log), batch[..i], env)
      {
        BatchRowsLast(leased, batch[..i + 1], env, cfg.maxAttempts);
        BatchLogLast(old(publisher.log), batch[..i + 1], env);
        assert batch[..i + 1][..i] == batch[..i];
        var _ := ProcessEvent(batch[i], env(batch[i].id));
      }
      assert batch[..|batch|] == batch;
      error := None;
    }
  }

  // ----- a round is a run of the step system -----

  /** The moments at which the publish call and the mark of an event take effect, if they do. */
  datatype Moments = Moments(publish: int, mark: int)

  /** Time moves on while the batch is handled, and what comes after the deadline has no effect. */
  ghost predicate InTime(clock: int, deadline: int, batch: seq<Event>, env: int -> Outcome, at: int -> Moments)
    decreases |batch|
  {
    batch != [] ==>
      var o, m := env(batch[0].id), at(batch[0].id);
      && clock <= m.publish <= m.mark
      && (m.publish > deadline ==> !o.appended)
      && (m.mark > deadline ==> o.mark.Fails?)
      && InTime(m.mark, deadline, batch[1..], env, at)
  }

  function EventSteps(w: int, o: Outcome, m: Moments): seq<Pipeline.Action> {
    [Pipeline.Tick(m.publish), Pipeline.Publish(w, o.appended, o.error),
     Pipeline.Tick(m.mark), Pipeline.Mark(w, !o.mark.Fails?, o.at)]
  }

  function BatchSteps(w: int, batch: seq<Event>, env: int -> Outcome, at: int -> Moments): seq<Pipeline.Action> {
    if batch == [] then []
    else EventSteps(w, env(batch[0].id), at(batch[0].id)) + BatchSteps(w, batch[1..], env, at)
  }

  lemma TickThen(cfg: Pipeline.Config, s: Pipeline.State, to: int, a: Pipeline.Action) returns (t: Pipeline.State)
    requires s.clock <= to && Pipeline.Enabled(cfg, s.(clock := to), a)
    ensures t == Pipeline.Apply(cfg, s.(clock := to), a)
    ensures Pipeline.Exec(cfg, s, [Pipeline.Tick(to), a]) == Some(t)
  {
    t := Pipeline.Apply(cfg, s.(clock := to), a);
    assert [Pipeline.Tick(to), a][1..] == [a];
    assert Pipeline.Exec(cfg, s.(clock := to), [a]) == Some(t);
  }

  /** The two calls for the first event of a batch are two steps of the worker, at their moments. */
  lemma EventIsRun(cfg: Pipeline.Config, s: Pipeline.State, w: int, o: Outcome, m: Moments) returns (t: Pipeline.State)
    requires Pipeline.WorkerOf(s, w).Busy?
    requires Pipeline.WorkerOf(s, w).phase.Ready? && Pipeline.WorkerOf(s, w).batch != []
    requires Possible(o) && s.clock <= m.publish <= m.mark
    requires m.publish > Pipeline.WorkerOf(s, w).deadline ==> !o.appended
    requires m.mark > Pipeline.WorkerOf(s, w).deadline ==> o.mark.Fails?
    ensures Pipeline.Exec(cfg, s, EventSteps(w, o, m)) == Some(t)
    ensures
      var e := Pipeline.WorkerOf(s, w).batch[0];
      && t.rows == HandledRows(s.rows, e, o, cfg.maxAttempts)
      && t.log == HandledLog(s.log, e, o)
      && t.clock == m.mark
      && Pipeline.WorkerOf(t, w) == Pipeline.WorkerOf(s, w).(batch := Pipeline.WorkerOf(s, w).batch[1..])
  {
    var publish, mark := Pipeline.Publish(w, o.appended, o.error), Pipeline.Mark(w, !o.mark.Fails?, o.at);
    var middle := TickThen(cfg, s, m.publish, publish);
    t := TickThen(cfg, middle, m.mark, mark);
    Pipeline.ExecAppend(cfg, s, [Pipeline.Tick(m.publish), publish], [Pipeline.Tick(m.mark), mark]);
    assert EventSteps(w, o, m) == [Pipeline.Tick(m.publish), publish] + [Pipeline.Tick(m.mark), mark];
  }

  /** Handling a batch, whenever its deadline comes, takes exactly the worker's steps of the pipeline, so what
      every run keeps is kept by ProcessOnce. */
  lemma {:induction false} BatchIsRun(cfg: Pipeline.Config, s: Pipeline.State, w: int, env: int -> Outcome,
                                      at: int -> Moments)
    returns (t: Pipeline.State)
    requires Pipeline.WorkerOf(s, w).Busy? && Pipeline.WorkerOf(s, w).phase.Ready?
    requires forall id :: Possible(env(id))
    requires InTime(s.clock, Pipeline.WorkerOf(s, w).deadline, Pipeline.WorkerOf(s, w).batch, env, at)
    ensures Pipeline.Exec(cfg, s, BatchSteps(w, Pipeline.WorkerOf(s, w).batch, env, at)) == Some(t)
    ensures t.rows == BatchRows(s.rows, Pipeline.WorkerOf(s, w).batch, env, cfg.maxAttempts)
    ensures t.log == BatchLog(s.log, Pipeline.WorkerOf(s, w).batch, env)
    ensures Pipeline.WorkerOf(t, w) == Pipeline.WorkerOf(s, w).(batch := [])
    decreases |Pipeline.WorkerOf(s, w).batch|
  {
    var batch := Pipeline.WorkerOf(s, w).batch;
    if batch == [] {
      t := s;
    } else {
      var o, m := env(batch[0].id), at(batch[0].id);
      var next := EventIsRun(cfg, s, w, o, m);
      t := BatchIsRun(cfg, next, w, env, at);
      Pipeline.ExecAppend(cfg, s, EventSteps(w, o, m), BatchSteps(w, batch[1..], env, at));
    }
  }

  /** A lease: the worker takes the time, and the statement takes effect while its context lasts. */
  function LeaseSteps(w: int, clientNow: int, now: int, skipped: set<int>, ids: seq<int>, answered: bool)
    : seq<Pipeline.Action>
  {
    [Pipeline.Start(w), Pipeline.Tick(now), Pipeline.Fetch(w, clientNow, now, skipped, ids, answered)]
  }

  ghost predicate CanLease(cfg: Pipeline.Config, s: Pipeline.State, w: int, clientNow: int, now: int,
                           skipped: set<int>, ids: seq<int>)
  {
    && Keyed(s.rows) && Pipeline.WorkerOf(s, w).Idle?
    && s.clock <= now <= s.clock + cfg.processTimeout
    && s.clock - cfg.skew <= clientNow <= now + cfg.skew
    && Selects(s.rows, cfg.batchSize, clientNow - cfg.lockTimeout, skipped, ids)
  }

  /** The lease statement itself, once the worker has taken the time. */
  lemma FetchIsStep(cfg: Pipeline.Config, s: Pipeline.State, w: int, at: int, clientNow: int, now: int, skipped: set<int>,
                    ids: seq<int>, answered: bool) returns (t: Pipeline.State)
    requires Pipeline.WorkerOf(s, w) == Pipeline.Started(at) && s.clock == now && at <= now <= at + cfg.processTimeout
    requires at - cfg.skew <= clientNow <= now + cfg.skew
    requires Selects(s.rows, cfg.batchSize, clientNow - cfg.lockTimeout, skipped, ids)
    ensures var fetch := Pipeline.Fetch(w, clientNow, now, skipped, ids, answered);
      Pipeline.Enabled(cfg, s, fetch) && t == Pipeline.Apply(cfg, s, fetch)
    ensures t.rows == Leased(s.rows, ids, now) && t.log == s.log && t.clock == now
    ensures forall i | 0 <= i < |ids| :: ids[i] in t.rows
    ensures Pipeline.WorkerOf(t, w) ==
            if answered then Pipeline.Busy(at + cfg.processTimeout, Pipeline.Fetched(t.rows, ids), Pipeline.Ready)
            else Pipeline.Idle
  {
    SelectedRows(s.rows, cfg.batchSize, clientNow - cfg.lockTimeout, skipped, ids);
    t := Pipeline.Apply(cfg, s, Pipeline.Fetch(w, clientNow, now, skipped, ids, answered));
  }

  lemma LeaseIsRun(cfg: Pipeline.Config, s: Pipeline.State, w: int, clientNow: int, now: int, skipped: set<int>,
                   ids: seq<int>, answered: bool) returns (t: Pipeline.State)
    requires CanLease(cfg, s, w, clientNow, now, skipped, ids)
    ensures Pipeline.Exec(cfg, s, LeaseSteps(w, clientNow, now, skipped, ids, answered)) == Some(t)
    ensures t.rows == Leased(s.rows, ids, now) && t.log == s.log && t.clock == now
    ensures forall i | 0 <= i < |ids| :: ids[i] in t.rows
    ensures Pipeline.WorkerOf(t, w) ==
            if answered then Pipeline.Busy(s.clock + cfg.processTimeout, Pipeline.Fetched(t.rows, ids), Pipeline.Ready)
            else Pipeline.Idle
  {
    var start, fetch := Pipeline.Start(w), Pipeline.Fetch(w, clientNow, now, skipped, ids, answered);
    var started := Pipeline.Apply(cfg, s, start);
    t := FetchIsStep(cfg, started.(clock := now), w, s.clock, clientNow, now, skipped, ids, answered);
    var u := TickThen(cfg, started, now, fetch);
    assert Pipeline.Exec(cfg, s, [start]) == Some(started);
    Pipeline.ExecAppend(cfg, s, [start], [Pipeline.Tick(now), fetch]);
    assert LeaseSteps(w, clientNow, now, skipped, ids, answered) == [start] + [Pipeline.Tick(now), fetch];
  }

  /** The steps of a whole round: the lease, the handling of its batch if it was answered, and idle again. A lease
      that fails is a round given up. */
  function RoundSteps(w: int, clientNow: int, now: int, skipped: set<int>, fetch: Call, ids: seq<int>,
                      batch: seq<Event>, env: int -> Outcome, at: int -> Moments): seq<Pipeline.Action>
  {
    match fetch
    case Fails => [Pipeline.Start(w), Pipeline.Crash(w)]
    case AnswerLost => LeaseSteps(w, clientNow, now, skipped, ids, false)
    case Answers =>
      LeaseSteps(w, clientNow, now, skipped, ids, true) + (BatchSteps(w, batch, env, at) + [Pipeline.Finish(w)])
  }

  lemma FinishIsStep(cfg: Pipeline.Config, s: Pipeline.State, w: int) returns (t: Pipeline.State)
    requires Pipeline.WorkerOf(s, w).Busy? && Pipeline.WorkerOf(s, w).batch == []
    ensures Pipeline.Exec(cfg, s, [Pipeline.Finish(w)]) == Some(t)
    ensures t.rows == s.rows && t.log == s.log && Pipeline.WorkerOf(t, w).Idle?
  {
    t := Pipeline.Apply(cfg, s, Pipeline.Finish(w));
  }

  lemma AnsweredIsRun(cfg: Pipeline.Config, s: Pipeline.State, w: int, clientNow: int, now: int, skipped: set<int>,
                      batch: seq<Event>, env: int -> Outcome, at: int -> Moments) returns (t: Pipeline.State)
    requires CanLease(cfg, s, w, clientNow, now, skipped, Ids(batch))
    requires forall e | e in batch :: e.id in s.rows && e == LeasedRow(s.rows[e.id], now)
    requires (forall id :: Possible(env(id))) && InTime(now, s.clock + cfg.processTimeout, batch, env, at)
    ensures Pipeline.Exec(cfg, s, RoundSteps(w, clientNow, now, skipped, Answers, Ids(batch), batch, env, at)) == Some(t)
    ensures t.rows == BatchRows(Leased(s.rows, Ids(batch), now), batch, env, cfg.maxAttempts)
    ensures t.log == BatchLog(s.log, batch, env) && Pipeline.WorkerOf(t, w).Idle?
  {
    var lease := LeaseSteps(w, clientNow, now, skipped, Ids(batch), true);
    var handling := BatchSteps(w, batch, env, at);
    var leased := LeaseIsRun(cfg, s, w, clientNow, now, skipped, Ids(batch), true);
    FetchedBatch(s.rows, batch, now);
    var handled := BatchIsRun(cfg, leased, w, env, at);
    t := FinishIsStep(cfg, handled, w);
    Pipeline.ExecAppend(cfg, leased, handling, [Pipeline.Finish(w)]);
    Pipeline.ExecAppend(cfg, s, lease, handling + [Pipeline.Finish(w)]);
  }

  /** What ProcessOnce promises, whatever becomes of its lease and whenever its deadline comes, is what these
      steps lead to. */
  lemma RoundIsRun(cfg: Pipeline.Config, s: Pipeline.State, w: int, clientNow: int, now: int, skipped: set<int>,
                   fetch: Call, ids: seq<int>, batch: seq<Event>, env: int -> Outcome, at: int -> Moments)
    returns (t: Pipeline.State)
    requires CanLease(cfg, s, w, clientNow, now, skipped, ids)
    requires fetch.Answers? ==>
      && ids == Ids(batch)
      && (forall e | e in batch :: e.id in s.rows && e == LeasedRow(s.rows[e.id], now))
      && (forall id :: Possible(env(id))) && InTime(now, s.clock + cfg.processTimeout, batch, env, at)
    ensures Pipeline.Exec(cfg, s, RoundSteps(w, clientNow, now, skipped, fetch, ids, batch, env, at)) == Some(t)
    ensures Pipeline.WorkerOf(t, w).Idle?
    ensures fetch.Fails? ==> t.rows == s.rows && t.log == s.log
    ensures fetch.AnswerLost? ==> t.rows == Leased(s.rows, ids, now) && t.log == s.log
    ensures fetch.Answers? ==>
      && t.rows == BatchRows(Leased(s.rows, ids, now), batch, env, cfg.maxAttempts)
      && t.log == BatchLog(s.log, batch, env)
  {
    match fetch
    case Fails =>
      var start, crash := Pipeline.Start(w), Pipeline.Crash(w);
      var started := Pipeline.Apply(cfg, s, start);
      t := Pipeline.Apply(cfg, started, crash);
      assert [start, crash][1..] == [crash];
      assert Pipeline.Exec(cfg, started, [crash]) == Some(t);
    case AnswerLost => t := LeaseIsRun(cfg, s, w, clientNow, now, skipped, ids, false);
    case Answers => t := AnsweredIsRun(cfg, s, w, clientNow, now, skipped, batch, env, at);
  }

  lemma FetchedBatch(rows: Rows, batch: seq<Event>, now: int)
    requires Keyed(rows)
    requires forall e | e in batch :: e.id in rows && e == LeasedRow(rows[e.id], now)
    ensures forall i | 0 <= i < |batch| :: Ids(batch)[i] in Leased(rows, Ids(batch), now)
    ensures Pipeline.Fetched(Leased(rows, Ids(batch), now), Ids(batch)) == batch
  {
    forall i | 0 <= i < |batch|
      ensures Ids(batch)[i] in rows && Leased(rows, Ids(batch), now)[Ids(batch)[i]] == batch[i]
    {
      assert batch[i] in batch && Ids(batch)[i] in Ids(batch);
    }
  }
}
