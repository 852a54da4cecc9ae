/** What a row's attempts count, and when they stay within maxAttempts. */
module Attempts {
  import opened Wrappers
  import opened OutboxTable
  import opened Pipeline
  import opened PipelineInvariants

  /** The step leases a row that is still PROCESSING, because its lock has expired. */
  predicate Reclaims(s: State, a: Action, id: int) {
    a.Fetch? && id in a.ids && Matches(s.rows, id)
  }

  /** The step reclaims a row whose attempts are used up already. */
  predicate Overruns(cfg: Config, s: State, a: Action, id: int) {
    Reclaims(s, a, id) && s.rows[id].attempts >= cfg.maxAttempts
  }

  ghost function ReclaimsIn(cfg: Config, s: State, steps: seq<Action>, id: int): nat
    decreases |steps|
  {
    if steps == [] || !Enabled(cfg, s, steps[0]) then 0
    else (if Reclaims(s, steps[0], id) then 1 else 0) + ReclaimsIn(cfg, Apply(cfg, s, steps[0]), steps[1..], id)
  }

  ghost predicate OverrunIn(cfg: Config, s: State, steps: seq<Action>, id: int)
    decreases |steps|
  {
    && steps != [] && Enabled(cfg, s, steps[0])
    && (Overruns(cfg, s, steps[0], id) || OverrunIn(cfg, Apply(cfg, s, steps[0]), steps[1..], id))
  }

  // ----- exact accounting -----

  /** The attempts of a row that ended neither in a give-up nor in the present or final lease. */
  function Lost(s: State, id: int): int {
    if id in s.rows && id in s.giveUps
    then s.rows[id].attempts - s.giveUps[id] -
         (if s.rows[id].status.Processing? || s.rows[id].status.Processed? then 1 else 0)
    else 0
  }

  lemma FetchLosses(cfg: Config, s: State, a: Action, id: int)
    requires RowsInv(cfg, s) && Enabled(cfg, s, a) && a.Fetch?
    ensures Lost(Apply(cfg, s, a), id) == Lost(s, id) + if Reclaims(s, a, id) then 1 else 0
  {
    var t := Apply(cfg, s, a);
    assert t.rows == Leased(s.rows, a.ids, a.lockAt) && t.giveUps == s.giveUps;
    if id in s.rows && id in a.ids {
      assert Eligible(s.rows[id], a.readAt - cfg.lockTimeout);
    }
  }

  lemma StepLosses(cfg: Config, s: State, a: Action, id: int)
    requires RowsInv(cfg, s) && Enabled(cfg, s, a)
    ensures Lost(Apply(cfg, s, a), id) == Lost(s, id) + if Reclaims(s, a, id) then 1 else 0
  {
    if a.Fetch? {
      FetchLosses(cfg, s, a, id);
    }
  }

  lemma {:induction false} RunLosses(cfg: Config, s: State, steps: seq<Action>, id: int)
    requires ValidConfig(cfg) && RowsInv(cfg, s) && Exec(cfg, s, steps).Some?
    ensures Lost(Exec(cfg, s, steps).value, id) == Lost(s, id) + ReclaimsIn(cfg, s, steps, id)
    decreases |steps|
  {
    if steps != [] {
      StepLosses(cfg, s, steps[0], id);
      StepKeepsRows(cfg, s, steps[0]);
      RunLosses(cfg, Apply(cfg, s, steps[0]), steps[1..], id);
    }
  }

  /** In every run, each attempt of a row is one MarkFailed that took effect, one lease that was taken over
      while it lasted, or the lease it is or was PROCESSED under. */
  lemma AttemptsAccounted(cfg: Config, steps: seq<Action>, s: State, id: int)
    requires ValidConfig(cfg) && Exec(cfg, INITIAL, steps) == Some(s) && id in s.rows
    ensures id in s.giveUps
    ensures s.rows[id].attempts ==
            s.giveUps[id] + ReclaimsIn(cfg, INITIAL, steps, id) +
            (if s.rows[id].status.Processing? || s.rows[id].status.Processed? then 1 else 0)
  {
    RunKeepsInv(cfg, INITIAL, steps);
    RunLosses(cfg, INITIAL, steps, id);
  }

  // ----- the bound -----

  ghost predicate Within(cfg: Config, s: State, id: int) {
    id in s.rows ==> s.rows[id].attempts <= cfg.maxAttempts
  }

  lemma StepWithin(cfg: Config, s: State, a: Action, id: int)
    requires RowsInv(cfg, s) && Enabled(cfg, s, a) && Within(cfg, s, id)
    ensures Within(cfg, Apply(cfg, s, a), id) <==> !Overruns(cfg, s, a, id)
  {
    if a.Fetch? {
      FetchLosses(cfg, s, a, id);
      assert Apply(cfg, s, a).rows == Leased(s.rows, a.ids, a.lockAt);
      assert id in a.ids ==> Eligible(s.rows[id], a.readAt - cfg.lockTimeout);
    }
  }

  lemma {:induction false} RunWithin(cfg: Config, s: State, steps: seq<Action>, id: int)
    requires ValidConfig(cfg) && RowsInv(cfg, s) && Exec(cfg, s, steps).Some? && Within(cfg, s, id)
    ensures Within(cfg, Exec(cfg, s, steps).value, id) <==> !OverrunIn(cfg, s, steps, id)
    decreases |steps|
  {
    if steps != [] {
      var next := Apply(cfg, s, steps[0]);
      StepWithin(cfg, s, steps[0], id);
      StepKeepsRows(cfg, s, steps[0]);
      if Within(cfg, next, id) {
        RunWithin(cfg, next, steps[1..], id);
      } else {
        RunMovesForward(cfg, next, steps[1..]);
      }
    }
  }

  /** A row's attempts are within maxAttempts after a run exactly when no lease of the run took it while it was
      PROCESSING with its attempts used up. */
  lemma AttemptsBoundedIff(cfg: Config, steps: seq<Action>, s: State, id: int)
    requires ValidConfig(cfg) && Exec(cfg, INITIAL, steps) == Some(s) && id in s.rows
    ensures s.rows[id].attempts <= cfg.maxAttempts <==> !OverrunIn(cfg, INITIAL, steps, id)
  {
    RunWithin(cfg, INITIAL, steps, id);
  }
}
