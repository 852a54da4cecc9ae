/** How often an event is published, counting every batch entry that is not finished. */
module Duplicates {
  import opened Wrappers
  import opened OutboxTable
  import opened Pipeline
  import opened PipelineInvariants
  import opened Leases

  /** The workers that have the event in their unfinished batch. */
  ghost function Holders(s: State, id: int): set<int> {
    set w | w in s.workers && Holds(s.workers[w], id)
  }

  predicate InFlight(worker: Worker, id: int) {
    worker.Busy? && worker.batch != [] && worker.batch[0].id == id && !worker.phase.Ready?
  }

  /** The workers between the publish call and the mark of the event. */
  ghost function Marking(s: State, id: int): set<int> {
    set w | w in s.workers && InFlight(s.workers[w], id)
  }

  lemma HoldsSplit(worker: Worker, id: int)
    requires worker.Busy? ==> Distinct(Ids(worker.batch))
    ensures Holds(worker, id) <==> Owes(worker, id) || InFlight(worker, id)
    ensures !(Owes(worker, id) && InFlight(worker, id))
  {
    if worker.Busy? {
      var ids := Ids(worker.batch);
      assert forall i | 0 <= i < |ids| :: ids[i] in ids && ids[i] == worker.batch[i].id;
    }
  }

  /** Every holder still owes the publish call or is about to mark, and none does both. */
  lemma HoldersSplit(s: State, id: int)
    requires HoldInv(s)
    ensures |Holders(s, id)| == |Owing(s, id)| + |Marking(s, id)|
  {
    forall w | w in s.workers
      ensures Holds(s.workers[w], id) <==> Owes(s.workers[w], id) || InFlight(s.workers[w], id)
      ensures !(Owes(s.workers[w], id) && InFlight(s.workers[w], id))
    {
      assert HoldsOk(s.rows, s.log, s.workers[w]);
      HoldsSplit(s.workers[w], id);
    }
    assert Holders(s, id) == Owing(s, id) + Marking(s, id);
    assert Owing(s, id) !! Marking(s, id);
  }

  /** Copies in the log plus all unfinished batch entries exceed the attempts by at most the number of workers
      between the publish and the mark of this event. */
  lemma HoldingBound(cfg: Config, s: State, id: int)
    requires ValidConfig(cfg) && Reachable(cfg, s) && id in s.rows
    ensures Copies(s, id) + |Holders(s, id)| <= s.rows[id].attempts + |Marking(s, id)|
  {
    ReachableInv(cfg, s);
    DuplicationBound(cfg, s, id);
    HoldersSplit(s, id);
  }

  /** Without those workers the bound fails: one lease, one successful publish, and the mark still to come. */
  lemma HoldingExceeds(cfg: Config) returns (s: State)
    requires ValidConfig(cfg)
    ensures Reachable(cfg, s) && 1 in s.rows
    ensures Copies(s, 1) + |Holders(s, 1)| == s.rows[1].attempts + 1
  {
    var leased := FirstLease(cfg);
    var publish := Publish(10, true, None);
    ReachableStep(cfg, leased, publish);
    s := Apply(cfg, leased, publish);
    assert s.log == [RecordFor(s.rows[1])];
    assert Holders(s, 1) == {10};
  }
}
