/** The service's calls, one after the other, are runs of the interleaved system of one user's cache entry. */
module CacheSteps {
  import opened Wrappers
  import opened Users
  import opened UserCache
  import opened Calls
  import Staleness

  /** The store and the cache entry of one user, as the interleaved system sees them. */
  ghost predicate Shows(v: View, id: int, s: Staleness.State) {
    && Staleness.Stored(s) == (if id in v.users then Some(Selected(v.users[id])) else None)
    && (id in v.cache ==>
          s.entry.Some? && s.clock < s.entry.value.expires && s.entry.value.value == ToDomain(v.cache[id]))
  }

  /** What follows a write that may have reached the store. */
  function Invalidation(delFails: bool, db: Call): seq<Staleness.Action> {
    if delFails || db.AnswerLost? then [] else [Staleness.Forget]
  }

  /** The steps of one user's entry that a call makes; calls for other users make none. */
  function Steps(v: View, lib: TextLib, op: Op, id: int, g: int): seq<Staleness.Action> {
    var after := Handle(v, true, lib, op);
    match op
    case Get(other, getFails, setFails, dbFails) =>
      if other != id || after.reply.Err? then []
      else if !getFails && id in v.cache then [Staleness.Hit]
      else if setFails then [Staleness.ReadStore(g), Staleness.Finish(g)]
      else [Staleness.ReadStore(g), Staleness.SetCache(g), Staleness.Finish(g)]
    case Update(other, _, _, _, _, delFails, calls) =>
      if other != id || (after.reply.Err? && after.view.users == v.users) then []
      else [Staleness.Store(Some(Selected(after.view.users[id])))] + Invalidation(delFails, calls.update)
    case Delete(other, delFails, db) =>
      if other != id || (after.reply.Err? && after.view.users == v.users) then []
      else [Staleness.Store(None)] + Invalidation(delFails, db)
    case Insert(user) =>
      if user.id != id || id in v.users then [] else [Staleness.Store(Some(Selected(user)))]
    case Expire(ids) => if id in ids then [Staleness.Forget] else []
  }

  /** What a call returns for the user, if it is a read that succeeds. */
  function Returns(v: View, lib: TextLib, op: Op, id: int, at: int): seq<Staleness.Return> {
    match op
    case Get(other, _, _, _) =>
      var reply := Handle(v, true, lib, op).reply;
      if other == id && reply.Ok? && reply.value.Some? then [Staleness.Return(at, reply.value.value)] else []
    case _ => []
  }

  lemma Executes(cfg: Staleness.Config, s: Staleness.State, steps: seq<Staleness.Action>)
    requires steps != [] && Staleness.Enabled(cfg, s, steps[0])
    ensures Staleness.Exec(cfg, s, steps) == Staleness.Exec(cfg, Staleness.Apply(cfg, s, steps[0]), steps[1..])
  {
  }

  lemma GetIsRun(cfg: Staleness.Config, s: Staleness.State, v: View, lib: TextLib, op: Op, id: int, g: int)
    returns (t: Staleness.State)
    requires Staleness.ValidConfig(cfg) && Shows(v, id, s) && g !in s.readers && op.Get?
    ensures Staleness.Exec(cfg, s, Steps(v, lib, op, id, g)) == Some(t)
    ensures Shows(Handle(v, true, lib, op).view, id, t)
    ensures t.readers == s.readers && t.returned == s.returned + Returns(v, lib, op, id, s.clock)
  {
    var steps := Steps(v, lib, op, id, g);
    t := s;
    if steps != [] {
      Executes(cfg, s, steps);
      t := Staleness.Apply(cfg, s, steps[0]);
      if steps[0].ReadStore? {
        Executes(cfg, t, steps[1..]);
        t := Staleness.Apply(cfg, t, steps[1]);
        if |steps| == 3 {
          Executes(cfg, t, steps[1..][1..]);
          t := Staleness.Apply(cfg, t, steps[2]);
        }
        assert t.readers == s.readers;
      }
    }
  }

  /** A new value in the store, and perhaps the invalidation after it. */
  lemma StoreIsRun(cfg: Staleness.Config, s: Staleness.State, value: Option<User>, invalidation: seq<Staleness.Action>)
    returns (t: Staleness.State)
    requires invalidation == [] || invalidation == [Staleness.Forget]
    ensures Staleness.Exec(cfg, s, [Staleness.Store(value)] + invalidation) == Some(t)
    ensures Staleness.Stored(t) == value && t.clock == s.clock && t.readers == s.readers && t.returned == s.returned
    ensures t.entry == if invalidation == [] then s.entry else None
  {
    var steps := [Staleness.Store(value)] + invalidation;
    Executes(cfg, s, steps);
    t := Staleness.Apply(cfg, s, steps[0]);
    assert steps[1..] == invalidation;
    if invalidation != [] {
      Executes(cfg, t, invalidation);
      t := Staleness.Apply(cfg, t, Staleness.Forget);
    }
  }

  lemma UpdateIsRun(cfg: Staleness.Config, s: Staleness.State, v: View, lib: TextLib, op: Op, id: int, g: int)
    returns (t: Staleness.State)
    requires Shows(v, id, s) && op.Update?
    ensures Staleness.Exec(cfg, s, Steps(v, lib, op, id, g)) == Some(t)
    ensures Shows(Handle(v, true, lib, op).view, id, t)
    ensures t.readers == s.readers && t.returned == s.returned
  {
    t := s;
    if Steps(v, lib, op, id, g) != [] {
      t := StoreIsRun(cfg, s, Some(Selected(Handle(v, true, lib, op).view.users[id])),
                      Invalidation(op.delFails, op.calls.update));
    }
  }

  lemma DeleteIsRun(cfg: Staleness.Config, s: Staleness.State, v: View, lib: TextLib, op: Op, id: int, g: int)
    returns (t: Staleness.State)
    requires Shows(v, id, s) && op.Delete?
    ensures Staleness.Exec(cfg, s, Steps(v, lib, op, id, g)) == Some(t)
    ensures Shows(Handle(v, true, lib, op).view, id, t)
    ensures t.readers == s.readers && t.returned == s.returned
  {
    t := s;
    if Steps(v, lib, op, id, g) != [] {
      t := StoreIsRun(cfg, s, None, Invalidation(op.delFails, op.db));
    }
  }

  lemma InsertIsRun(cfg: Staleness.Config, s: Staleness.State, v: View, lib: TextLib, op: Op, id: int, g: int)
    returns (t: Staleness.State)
    requires Shows(v, id, s) && op.Insert?
    ensures Staleness.Exec(cfg, s, Steps(v, lib, op, id, g)) == Some(t)
    ensures Shows(Handle(v, true, lib, op).view, id, t)
    ensures t.readers == s.readers && t.returned == s.returned
  {
    t := s;
    if Steps(v, lib, op, id, g) != [] {
      t := StoreIsRun(cfg, s, Some(Selected(op.user)), []);
      assert Steps(v, lib, op, id, g) == [Staleness.Store(Some(Selected(op.user)))] + [];
    }
  }

  /** Every other call and event than a read is a run of the interleaved system, and leaves it showing what the
      service's store and cache then hold. */
  lemma WriteIsRun(cfg: Staleness.Config, s: Staleness.State, v: View, lib: TextLib, op: Op, id: int, g: int)
    returns (t: Staleness.State)
    requires Shows(v, id, s) && !op.Get?
    ensures Staleness.Exec(cfg, s, Steps(v, lib, op, id, g)) == Some(t)
    ensures Shows(Handle(v, true, lib, op).view, id, t)
    ensures t.readers == s.readers && t.returned == s.returned
  {
    t := s;
    var steps := Steps(v, lib, op, id, g);
    match op
    case Update(_, _, _, _, _, _, _) => t := UpdateIsRun(cfg, s, v, lib, op, id, g);
    case Delete(_, _, _) => t := DeleteIsRun(cfg, s, v, lib, op, id, g);
    case Insert(_) => t := InsertIsRun(cfg, s, v, lib, op, id, g);
    case Expire(_) =>
      if steps != [] {
        Executes(cfg, s, steps);
        t := Staleness.Apply(cfg, s, Staleness.Forget);
      }
  }
}
