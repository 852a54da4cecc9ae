/** Every row and every record of a run goes back to one Create step of that run, and older rows are leased first. */
module Origins {
  import opened Wrappers
  import opened EventFormat
  import opened OutboxTable
  import opened Pipeline
  import opened PipelineInvariants

  /** What the row of an event keeps of the step that created it, whatever has become of the row since. */
  ghost predicate MadeBy(e: Event, a: Action) {
    a.Create? && e.id == a.eventId && e.createdAt == a.createdAt &&
    e.body == UserRegisteredBody(a.userId, a.user.email, a.user.role)
  }

  lemma CreateMakes(cfg: Config, s: State, a: Action)
    requires Enabled(cfg, s, a) && Keyed(s.rows)
    ensures Keyed(Apply(cfg, s, a).rows)
    ensures a.Create? ==> MadeBy(Apply(cfg, s, a).rows[a.eventId], a)
    ensures Apply(cfg, s, a).rows.Keys == s.rows.Keys + if a.Create? then {a.eventId} else {}
  {
  }

  /** The row of every Create step is still there at the end of the run, with what the step gave it. */
  lemma {:induction false} CreatedStays(cfg: Config, s: State, steps: seq<Action>, i: nat)
    requires Keyed(s.rows) && Exec(cfg, s, steps).Some? && i < |steps| && steps[i].Create?
    ensures steps[i].eventId in Exec(cfg, s, steps).value.rows
    ensures MadeBy(Exec(cfg, s, steps).value.rows[steps[i].eventId], steps[i])
    decreases |steps|
  {
    var next := Apply(cfg, s, steps[0]);
    CreateMakes(cfg, s, steps[0]);
    if i == 0 {
      RunMovesForward(cfg, next, steps[1..]);
    } else {
      CreatedStays(cfg, next, steps[1..], i - 1);
    }
  }

  /** Every row of a run is that of one of its Create steps. */
  lemma {:induction false} RowsComeFromSteps(cfg: Config, s: State, steps: seq<Action>, id: int)
    requires Keyed(s.rows) && Exec(cfg, s, steps).Some? && id in Exec(cfg, s, steps).value.rows
    ensures id in s.rows || exists i :: 0 <= i < |steps| && MadeBy(Exec(cfg, s, steps).value.rows[id], steps[i])
    decreases |steps|
  {
    if steps != [] {
      var next, end := Apply(cfg, s, steps[0]), Exec(cfg, s, steps).value;
      CreateMakes(cfg, s, steps[0]);
      RowsComeFromSteps(cfg, next, steps[1..], id);
      if id in next.rows && id !in s.rows {
        CreatedStays(cfg, s, steps, 0);
      } else if id !in next.rows {
        var i :| 0 <= i < |steps[1..]| && MadeBy(end.rows[id], steps[1..][i]);
        assert MadeBy(end.rows[id], steps[i + 1]);
      }
    }
  }

  /** Every record of a run is the registration record of one of its Create steps: its user, with the data it was
      created with, under the numeral of its event, stamped with the time of its creation. */
  lemma RecordsTellOfCreations(cfg: Config, steps: seq<Action>, r: Record) returns (i: nat)
    requires ValidConfig(cfg) && Exec(cfg, INITIAL, steps).Some? && r in Exec(cfg, INITIAL, steps).value.log
    ensures i < |steps| && steps[i].Create?
    ensures IsRegistration(r, steps[i].eventId, steps[i].userId, steps[i].user.email, steps[i].user.role,
                           steps[i].createdAt)
  {
    var end := Exec(cfg, INITIAL, steps).value;
    ReachableInv(cfg, end);
    var id :| id in end.rows && r == RecordFor(end.rows[id]);
    RowsComeFromSteps(cfg, INITIAL, steps, id);
    i :| 0 <= i < |steps| && MadeBy(end.rows[id], steps[i]);
    RegistrationIff(r, id, steps[i].userId, steps[i].user.email, steps[i].user.role, steps[i].createdAt);
  }

  /** In every run, a lease that takes an event takes every NEW event created before it, unless another statement
      holds that one's row. */
  lemma OlderFirst(cfg: Config, steps: seq<Action>, i: nat, j: nat, a: Action)
    requires Exec(cfg, INITIAL, steps).Some? && i < |steps| && j < |steps| && steps[i].Create? && steps[j].Create?
    requires steps[i].createdAt < steps[j].createdAt
    requires a.Fetch? && Enabled(cfg, Exec(cfg, INITIAL, steps).value, a)
    ensures
      var rows, older := Exec(cfg, INITIAL, steps).value.rows, steps[i].eventId;
      && older in rows
      && (rows[older].status == New && older !in a.skipped && steps[j].eventId in a.ids ==> older in a.ids)
  {
    var rows := Exec(cfg, INITIAL, steps).value.rows;
    CreatedStays(cfg, INITIAL, steps, i);
    CreatedStays(cfg, INITIAL, steps, j);
    LeaseByColumns(rows, cfg.batchSize, a.readAt - cfg.lockTimeout, a.skipped, a.ids, a.lockAt, steps[i].eventId);
  }
}
