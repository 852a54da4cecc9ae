/**
  How a run lets open work finish: live workers publish what they owe, rounds of a worker publish what is left, and
  open transactions commit. Each half is by itself here.
 */
module Finishing {
  import opened Wrappers
  import opened EventFormat
  import opened OutboxTable
  import opened Pipeline
  import opened PipelineInvariants
  import opened Collections
  import Consumers

  /** The log has a record of the event from an index on. */
  ghost predicate LoggedSince(s: State, e: Event, from: nat) {
    exists i :: from <= i < |s.log| && s.log[i] == RecordFor(e)
  }

  // ----- live workers publish what they owe -----

  /** Rows and clock are the same, and the log has grown. */
  ghost predicate OnlyPublished(s: State, t: State) {
    t.rows == s.rows && t.clock == s.clock && s.log <= t.log && t.workers.Keys == s.workers.Keys
  }

  /** A worker publishes the first event of its batch, if it has not yet done so, and goes on without its mark. */
  lemma HeadPublished(cfg: Config, s: State, w: int) returns (t: State)
    requires w in s.workers && Live(s, w) && s.workers[w].batch != []
    ensures Continues(cfg, s, t) && OnlyPublished(s, t)
    ensures var worker := s.workers[w];
      && t.workers == s.workers[w := worker.(batch := worker.batch[1..], phase := Ready)]
      && (worker.phase.Ready? ==> t.log == s.log + [RecordFor(worker.batch[0])])
  {
    Stays(cfg, s);
    t := s;
    if s.workers[w].phase.Ready? {
      t := Continue(cfg, s, t, Publish(w, true, None));
    }
    t := Continue(cfg, s, t, Mark(w, false, 0));
  }

  /** The i-th event of its batch is still to be published. */
  predicate Due(worker: Worker, i: int) {
    worker.Busy? && 0 <= i < |worker.batch| && (i > 0 || worker.phase.Ready?)
  }

  lemma {:induction false} BatchPublished(cfg: Config, s: State, w: int) returns (t: State)
    requires w in s.workers && Live(s, w)
    ensures Continues(cfg, s, t) && OnlyPublished(s, t)
    ensures t.workers[w].Busy? && t.workers[w].batch == []
    ensures forall v | v in s.workers && v != w :: t.workers[v] == s.workers[v]
    ensures forall j | Due(s.workers[w], j) :: LoggedSince(t, s.workers[w].batch[j], |s.log|)
    decreases |s.workers[w].batch|
  {
    var worker := s.workers[w];
    if worker.batch == [] {
      Stays(cfg, s);
      t := s;
    } else {
      var next := HeadPublished(cfg, s, w);
      t := BatchPublished(cfg, next, w);
      ContinuesOn(cfg, s, next, t);
      forall j | Due(worker, j)
        ensures LoggedSince(t, worker.batch[j], |s.log|)
      {
        if j == 0 {
          assert t.log[|s.log|] == RecordFor(worker.batch[0]);
        } else {
          assert Due(next.workers[w], j - 1) && worker.batch[1..][j - 1] == worker.batch[j];
        }
      }
    }
  }

  ghost function Owers(s: State): set<int> {
    set w | w in s.workers && Live(s, w) && s.workers[w].batch != []
  }

  /** Afterwards no live worker owes anything, and whatever one of them owed is in the log since. */
  lemma {:induction false} AllOwedPublished(cfg: Config, s: State) returns (t: State)
    ensures Continues(cfg, s, t) && OnlyPublished(s, t) && Owers(t) == {}
    ensures forall w, j | w in s.workers && Live(s, w) && Due(s.workers[w], j) ::
              LoggedSince(t, s.workers[w].batch[j], |s.log|)
    decreases |Owers(s)|
  {
    if Owers(s) == {} {
      Stays(cfg, s);
      t := s;
      assert forall w | w in s.workers && Live(s, w) :: w !in Owers(s);
    } else {
      var w := AnyMember(Owers(s));
      var next := BatchPublished(cfg, s, w);
      assert Owers(next) == Owers(s) - {w};
      t := AllOwedPublished(cfg, next);
      ContinuesOn(cfg, s, next, t);
      forall v, j | v in s.workers && Live(s, v) && Due(s.workers[v], j)
        ensures LoggedSince(t, s.workers[v].batch[j], |s.log|)
      {
        if v == w {
          var i :| |s.log| <= i < |next.log| && next.log[i] == RecordFor(s.workers[w].batch[j]);
          assert t.log[i] == RecordFor(s.workers[w].batch[j]);
        } else {
          assert Live(next, v) && Due(next.workers[v], j);
        }
      }
    }
  }

  // ----- rounds publish what is left -----

  ghost function Unpublished(s: State): set<int> {
    set id | id in s.rows && !s.rows[id].status.Processed?
  }

  /** Rows that were published are as they were, and rows published since have a new record; none has failed. */
  ghost predicate Advances(s: State, t: State) {
    && s.log <= t.log && t.rows.Keys == s.rows.Keys
    && (forall id | id in s.rows && s.rows[id].status.Processed? :: t.rows[id] == s.rows[id])
    && (forall id | id in s.rows && !s.rows[id].status.Failed? :: !t.rows[id].status.Failed?)
    && (forall id | id in s.rows && t.rows[id].status.Processed? && !s.rows[id].status.Processed? ::
          LoggedSince(t, t.rows[id], |s.log|))
  }

  lemma AdvancesOn(s: State, m: State, t: State)
    requires Advances(s, m) && Advances(m, t)
    ensures Advances(s, t)
  {
    forall id | id in s.rows && t.rows[id].status.Processed? && !s.rows[id].status.Processed?
      ensures LoggedSince(t, t.rows[id], |s.log|)
    {
      if m.rows[id].status.Processed? {
        var i :| |s.log| <= i < |m.log| && m.log[i] == RecordFor(m.rows[id]);
        assert t.log[i] == RecordFor(t.rows[id]);
      } else {
        var i :| |m.log| <= i < |t.log| && t.log[i] == RecordFor(t.rows[id]);
      }
    }
  }

  lemma {:induction false} Oldest(rows: Rows, ids: set<int>) returns (id: int)
    requires ids != {} && ids <= rows.Keys
    ensures id in ids && forall other | other in ids :: rows[id].createdAt <= rows[other].createdAt
    decreases |ids|
  {
    id := AnyMember(ids);
    if ids - {id} != {} {
      var other := Oldest(rows, ids - {id});
      if rows[other].createdAt < rows[id].createdAt {
        id := other;
      }
    }
  }

  /** The oldest of a set of rows, up to a limit. */
  lemma {:induction false} Selection(rows: Rows, limit: nat, candidates: set<int>) returns (ids: seq<int>)
    requires candidates <= rows.Keys
    ensures Distinct(ids) && |ids| <= limit && forall id | id in ids :: id in candidates
    ensures forall other | other in candidates && other !in ids ::
              |ids| == limit && forall id | id in ids :: rows[id].createdAt <= rows[other].createdAt
    decreases limit
  {
    if limit == 0 || candidates == {} {
      ids := [];
    } else {
      var first := Oldest(rows, candidates);
      var rest := Selection(rows, limit - 1, candidates - {first});
      ids := [first] + rest;
    }
  }

  lemma SomeSelected(rows: Rows, limit: nat, cutoff: int, id: int) returns (ids: seq<int>)
    requires limit > 0 && id in rows && Eligible(rows[id], cutoff)
    ensures Selects(rows, limit, cutoff, {}, ids) && ids != []
  {
    var candidates := set other | other in rows && Eligible(rows[other], cutoff);
    ids := Selection(rows, limit, candidates);
    assert id in candidates;
  }

  /** Worker 0 starts afresh, once a row's lock has expired, and leases a whole batch, with no row passed over. */
  lemma FreshStart(cfg: Config, s: State, id: int) returns (t: State)
    requires RowsInv(cfg, s) && id in s.rows && !Terminal(s.rows[id])
    ensures Continues(cfg, s, t) && t == s.(clock := t.clock, workers := s.workers[0 := Started(t.clock)])
    ensures Eligible(s.rows[id], t.clock - cfg.lockTimeout)
  {
    var e := s.rows[id];
    var free := if e.lockedAt.Some? then e.lockedAt.value + cfg.lockTimeout + 1 else 0;
    assert RowInv(e, s.giveUps[id], cfg.maxAttempts);
    Stays(cfg, s);
    t := Continue(cfg, s, s, Crash(0));
    t := Continue(cfg, s, t, Tick(if free <= s.clock then s.clock else free));
    t := Continue(cfg, s, t, Start(0));
  }

  lemma BatchLeased(cfg: Config, s: State, m: State, id: int) returns (t: State, ids: seq<int>)
    requires ValidConfig(cfg) && Continues(cfg, s, m) && Keyed(m.rows) && id in m.rows
    requires WorkerOf(m, 0) == Started(m.clock) && Eligible(m.rows[id], m.clock - cfg.lockTimeout)
    ensures Continues(cfg, s, t) && t.log == m.log && t.clock == m.clock
    ensures Selects(m.rows, cfg.batchSize, m.clock - cfg.lockTimeout, {}, ids) && ids != []
    ensures t.rows == Leased(m.rows, ids, m.clock)
    ensures 0 in t.workers && Live(t, 0) && t.workers[0].phase.Ready? && Ids(t.workers[0].batch) == ids
  {
    ids := SomeSelected(m.rows, cfg.batchSize, m.clock - cfg.lockTimeout, id);
    LeasedIds(m.rows, cfg.batchSize, m.clock - cfg.lockTimeout, {}, ids, m.clock);
    t := Continue(cfg, s, m, Fetch(0, m.clock, m.clock, {}, ids, true));
  }

  /** A worker in the middle of a batch of rows that still wait for their marks. */
  ghost predicate AtWork(s: State) {
    && 0 in s.workers && Live(s, 0) && s.workers[0].phase.Ready?
    && forall e | e in s.workers[0].batch :: Matches(s.rows, e.id)
  }

  /** It publishes the first event of its batch and marks it. */
  lemma HeadMarked(cfg: Config, s: State, m: State) returns (t: State)
    requires Continues(cfg, s, m) && 0 in m.workers && Live(m, 0) && m.workers[0].phase.Ready?
    requires m.workers[0].batch != [] && Matches(m.rows, m.workers[0].batch[0].id)
    ensures Continues(cfg, s, t)
    ensures var worker, id := m.workers[0], m.workers[0].batch[0].id;
      && t.log == m.log + [RecordFor(worker.batch[0])] && t.clock == m.clock
      && t.rows == m.rows[id := ProcessedRow(m.rows[id], m.clock)]
      && t.workers == m.workers[0 := worker.(batch := worker.batch[1..])]
      && t.born == m.born
  {
    t := Continue(cfg, s, m, Publish(0, true, None));
    t := Continue(cfg, s, t, Mark(0, true, m.clock));
  }

  lemma RestWaits(rows: Rows, batch: seq<Event>, marked: Event)
    requires batch != [] && Distinct(Ids(batch)) && forall e | e in batch :: Matches(rows, e.id)
    ensures forall e | e in batch[1..] :: Matches(rows[batch[0].id := marked], e.id)
  {
    forall e | e in batch[1..]
      ensures Matches(rows[batch[0].id := marked], e.id)
    {
      var i :| 0 < i < |batch| && batch[i] == e;
      assert Ids(batch)[i] != Ids(batch)[0];
    }
  }

  lemma {:induction false} BatchMarked(cfg: Config, s: State, m: State) returns (t: State)
    requires ValidConfig(cfg) && Inv(cfg, s) && Continues(cfg, s, m) && AtWork(m)
    ensures Continues(cfg, s, t) && Advances(m, t)
    ensures forall e | e in m.workers[0].batch :: e.id in t.rows && t.rows[e.id].status.Processed?
    decreases |m.workers[0].batch|
  {
    var batch := m.workers[0].batch;
    t := m;
    if batch != [] {
      ContinuesKeepsInv(cfg, s, m);
      assert HoldsOk(m.rows, m.log, m.workers[0]) && batch[0] in batch;
      var next := HeadMarked(cfg, s, m);
      assert next.log[|m.log|] == RecordFor(next.rows[batch[0].id]);
      RestWaits(m.rows, batch, ProcessedRow(m.rows[batch[0].id], m.clock));
      t := BatchMarked(cfg, s, next);
      AdvancesOn(m, next, t);
      assert forall e | e in batch :: e == batch[0] || e in batch[1..];
    }
  }

  lemma LeaseAdvances(s: State, t: State, ids: seq<int>, at: int, cutoff: int)
    requires t.log == s.log && t.rows == Leased(s.rows, ids, at)
    requires forall id | id in ids :: id in s.rows && Eligible(s.rows[id], cutoff)
    ensures Advances(s, t) && forall id | id in ids :: id in Unpublished(s) && Matches(t.rows, id)
  {
  }

  /** Worker 0 holds a batch of rows that were not published. */
  lemma RoundLeases(cfg: Config, s: State, id: int) returns (t: State)
    requires ValidConfig(cfg) && RowsInv(cfg, s) && id in s.rows && !Terminal(s.rows[id])
    ensures Continues(cfg, s, t) && Advances(s, t) && AtWork(t)
    ensures t.workers[0].batch != [] && forall e | e in t.workers[0].batch :: e.id in Unpublished(s)
  {
    var started := FreshStart(cfg, s, id);
    var ids;
    t, ids := BatchLeased(cfg, s, started, id);
    LeaseAdvances(s, t, ids, started.clock, started.clock - cfg.lockTimeout);
    var batch := t.workers[0].batch;
    forall e | e in batch
      ensures e.id in ids
    {
      var i :| 0 <= i < |batch| && batch[i] == e;
      assert Ids(batch)[i] in ids;
    }
  }

  lemma FewerUnpublished(s: State, t: State, id: int)
    requires Advances(s, t) && id in Unpublished(s) && t.rows[id].status.Processed?
    ensures |Unpublished(t)| < |Unpublished(s)|
  {
    forall other | other in Unpublished(t)
      ensures other in Unpublished(s) - {id}
    {
      assert other in s.rows && !t.rows[other].status.Processed?;
    }
    SubsetSize(Unpublished(t), Unpublished(s) - {id});
  }

  /** One round of worker 0: some row is published that was not. */
  lemma RoundPublishes(cfg: Config, s: State, id: int) returns (t: State)
    requires ValidConfig(cfg) && Inv(cfg, s) && id in s.rows && !Terminal(s.rows[id])
    ensures Continues(cfg, s, t) && Advances(s, t) && |Unpublished(t)| < |Unpublished(s)|
  {
    var leased := RoundLeases(cfg, s, id);
    var first := leased.workers[0].batch[0];
    assert first in leased.workers[0].batch;
    t := BatchMarked(cfg, s, leased);
    AdvancesOn(s, leased, t);
    FewerUnpublished(s, t, first.id);
  }

  lemma {:induction false} AllPublished(cfg: Config, s: State) returns (t: State)
    requires ValidConfig(cfg) && Inv(cfg, s) && forall id | id in s.rows :: !s.rows[id].status.Failed?
    ensures Continues(cfg, s, t) && Advances(s, t) && Unpublished(t) == {}
    decreases |Unpublished(s)|
  {
    if Unpublished(s) == {} {
      Stays(cfg, s);
      t := s;
    } else {
      var id := AnyMember(Unpublished(s));
      var next := RoundPublishes(cfg, s, id);
      ContinuesKeepsInv(cfg, s, next);
      t := AllPublished(cfg, next);
      ContinuesOn(cfg, s, next, t);
      AdvancesOn(s, next, t);
    }
  }

  // ----- open transactions commit -----

  /** Every record passes the consumer's checks. */
  ghost predicate AllHandled(log: seq<Record>) {
    forall r | r in log ::
      && ParseRecord(r).Ok? && AuditFor(ParseRecord(r).value).Ok?
      && AuditFor(ParseRecord(r).value).value.sourceEventId == ParseRecord(r).value.eventId
  }

  lemma RecordsHandled(s: State)
    requires LogInv(s) && BornInv(s)
    ensures AllHandled(s.log)
  {
    forall r | r in s.log
      ensures ParseRecord(r).Ok? && AuditFor(ParseRecord(r).value).Ok?
      ensures AuditFor(ParseRecord(r).value).value.sourceEventId == ParseRecord(r).value.eventId
    {
      var id :| id in s.rows && r == RecordFor(s.rows[id]);
      var e := s.rows[id];
      assert TellsOf(s.born, e);
      PublishParseRoundTrip(e.id, e.body, e.createdAt);
    }
  }

  ghost predicate NonePending(k: Consumers.State) {
    forall c | c in k.txs :: !Consumers.Pending(k.txs[c])
  }

  ghost predicate IsOpen(k: Consumers.State, c: int) {
    c in k.txs && !k.txs[c].Idle?
  }

  /** One transaction has ended, with its event processed. */
  ghost predicate OnlyFinished(k: Consumers.State, l: Consumers.State, c: int) {
    && k.processed <= l.processed && l.txs == k.txs[c := Consumers.Idle]
    && (IsOpen(k, c) ==> k.txs[c].event.eventId in l.processed)
  }

  lemma AuditedCommits(log: seq<Record>, k: Consumers.State, m: Consumers.State, c: int) returns (l: Consumers.State)
    requires Consumers.Continues(log, k, m) && Consumers.Inv(log, m) && c in m.txs && Consumers.Pending(m.txs[c])
    ensures Consumers.Continues(log, k, l) && Consumers.Inv(log, l) && OnlyFinished(m, l, c)
  {
    l := m;
    if l.txs[c].Audited? {
      Consumers.OnConflictNeverFires(log, l, c);
      Consumers.StepKeepsInv(log, l, Consumers.MarkDone(c));
      l := Consumers.Continue(log, k, l, Consumers.MarkDone(c));
    }
    assert Consumers.TxOk(log, l, l.txs[c]);
    Consumers.StepKeepsInv(log, l, Consumers.Commit(c));
    l := Consumers.Continue(log, k, l, Consumers.Commit(c));
  }

  lemma HandlingCommits(log: seq<Record>, k: Consumers.State, m: Consumers.State, c: int) returns (l: Consumers.State)
    requires Consumers.Continues(log, k, m) && Consumers.Inv(log, m) && AllHandled(log) && NonePending(m)
    requires c in m.txs && m.txs[c].Handling?
    ensures Consumers.Continues(log, k, l) && Consumers.Inv(log, l) && OnlyFinished(m, l, c)
  {
    assert Consumers.TxOk(log, m, m.txs[c]);
    Consumers.StepKeepsInv(log, m, Consumers.Insert(c));
    l := Consumers.Continue(log, k, m, Consumers.Insert(c));
    if l.txs[c].Audited? {
      l := AuditedCommits(log, k, l, c);
    }
  }

  /** A transaction finishes if no other one makes it wait. */
  lemma TxFinishes(log: seq<Record>, k: Consumers.State, m: Consumers.State, c: int) returns (l: Consumers.State)
    requires Consumers.Continues(log, k, m) && Consumers.Inv(log, m) && AllHandled(log) && IsOpen(m, c)
    requires NonePending(m) || Consumers.Pending(m.txs[c])
    ensures Consumers.Continues(log, k, l) && Consumers.Inv(log, l) && OnlyFinished(m, l, c)
  {
    l := m;
    if l.txs[c].Reading? {
      Consumers.StepKeepsInv(log, l, Consumers.Read(c));
      l := Consumers.Continue(log, k, l, Consumers.Read(c));
    }
    if l.txs[c].Handling? {
      l := HandlingCommits(log, k, l, c);
    } else if !l.txs[c].Idle? {
      l := AuditedCommits(log, k, l, c);
    }
  }

  ghost function OpenTxs(k: Consumers.State): set<int> {
    set c | c in k.txs && IsOpen(k, c)
  }

  /** A transaction to finish next: one that others may be waiting for, if there is any. */
  lemma NextToFinish(k: Consumers.State) returns (c: int)
    requires OpenTxs(k) != {}
    ensures IsOpen(k, c) && (NonePending(k) || Consumers.Pending(k.txs[c]))
  {
    if NonePending(k) {
      c := AnyMember(OpenTxs(k));
    } else {
      c :| c in k.txs && Consumers.Pending(k.txs[c]);
    }
  }

  /** Afterwards no transaction is open, and the event of every one that was is processed. */
  lemma {:induction false} AllFinished(log: seq<Record>, k: Consumers.State) returns (l: Consumers.State)
    requires Consumers.Inv(log, k) && AllHandled(log)
    ensures Consumers.Continues(log, k, l) && k.processed <= l.processed && forall c | c in l.txs :: l.txs[c].Idle?
    ensures forall c | IsOpen(k, c) :: k.txs[c].event.eventId in l.processed
    decreases |OpenTxs(k)|
  {
    Consumers.Stays(log, k);
    if OpenTxs(k) == {} {
      l := k;
      assert forall c | c in k.txs :: c !in OpenTxs(k);
    } else {
      var c := NextToFinish(k);
      var next := TxFinishes(log, k, k, c);
      assert OpenTxs(next) == OpenTxs(k) - {c};
      l := AllFinished(log, next);
      Consumers.ContinuesOn(log, k, next, l);
      assert forall d | IsOpen(k, d) && d != c :: IsOpen(next, d) && next.txs[d] == k.txs[d];
    }
  }
}
