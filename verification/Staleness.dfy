/**
  Cached reads of one user under interleaving: readers, writers, invalidations and expiry in any order.
  A reader that finds nothing in the cache reads the store and sets the cache later; the invalidation of
  a newer write may come in between.
 */
module Staleness {
  import opened Wrappers
  import opened Users

  /** ttl is the lifetime of an entry; a reader takes at most delay from its read of the store to its set
      and its return. */
  datatype Config = Config(ttl: int, delay: int)

  predicate ValidConfig(cfg: Config) {
    cfg.ttl > 0 && cfg.delay >= 0
  }

  /** The store's value from a moment on; None means there is no such user. */
  datatype Write = Write(at: int, value: Option<User>)

  datatype Entry = Entry(value: User, expires: int, readAt: int)

  /** A reader between its read of the store and its return. */
  datatype Reader = Reader(value: User, readAt: int)

  datatype Return = Return(at: int, value: User)

  /** writes is the whole history of the store, returned what every GetUser call has given back. */
  datatype State = State(
    clock: int, writes: seq<Write>, entry: Option<Entry>, readers: map<int, Reader>, returned: seq<Return>)

  datatype Action =
    | Tick(to: int)
    | Store(value: Option<User>)
    | Hit
    | ReadStore(g: int)
    | SetCache(g: int)
    | Finish(g: int)
    | Forget

  const INITIAL := State(0, [], None, map[], [])

  function Stored(s: State): Option<User> {
    if s.writes == [] then None else s.writes[|s.writes| - 1].value
  }

  ghost predicate Enabled(cfg: Config, s: State, a: Action) {
    match a
    case Tick(to) => s.clock <= to && forall g | g in s.readers :: to <= s.readers[g].readAt + cfg.delay
    case Store(_) => true
    case Hit => s.entry.Some? && s.clock < s.entry.value.expires
    case ReadStore(g) => g !in s.readers && Stored(s).Some?
    case SetCache(g) => g in s.readers
    case Finish(g) => g in s.readers
    case Forget => true
  }

  function Apply(cfg: Config, s: State, a: Action): State
    requires Enabled(cfg, s, a)
  {
    match a
    case Tick(to) => s.(clock := to)
    case Store(value) => s.(writes := s.writes + [Write(s.clock, value)])
    case Hit => s.(returned := s.returned + [Return(s.clock, s.entry.value.value)])
    case ReadStore(g) => s.(readers := s.readers[g := Reader(Stored(s).value, s.clock)])
    case SetCache(g) => s.(entry := Some(Entry(s.readers[g].value, s.clock + cfg.ttl, s.readers[g].readAt)))
    case Finish(g) =>
      s.(readers := s.readers - {g}, returned := s.returned + [Return(s.clock, s.readers[g].value)])
    case Forget => s.(entry := None)
  }

  ghost function Exec(cfg: Config, s: State, steps: seq<Action>): Option<State>
    decreases |steps|
  {
    if steps == [] then Some(s)
    else if Enabled(cfg, s, steps[0]) then Exec(cfg, Apply(cfg, s, steps[0]), steps[1..])
    else None
  }

  ghost predicate Reachable(cfg: Config, s: State) {
    exists steps :: Exec(cfg, INITIAL, steps) == Some(s)
  }

  /** The store held this user at moment m. */
  ghost predicate StoredAt(writes: seq<Write>, value: User, m: int) {
    exists i :: 0 <= i < |writes| && HeldBy(writes, i, value, m)
  }

  predicate HeldBy(writes: seq<Write>, i: nat, value: User, m: int)
    requires i < |writes|
  {
    writes[i].value == Some(value) && writes[i].at <= m && (i + 1 < |writes| ==> m <= writes[i + 1].at)
  }

  /** The store held this user at some moment after low and up to high. */
  ghost predicate StoredWithin(writes: seq<Write>, value: User, low: int, high: int) {
    exists m :: low < m <= high && StoredAt(writes, value, m)
  }

  ghost predicate Inv(cfg: Config, s: State) {
    && (forall w | w in s.writes :: w.at <= s.clock)
    && (forall g | g in s.readers ::
          StoredAt(s.writes, s.readers[g].value, s.readers[g].readAt) &&
          s.readers[g].readAt <= s.clock <= s.readers[g].readAt + cfg.delay)
    && (s.entry.Some? ==>
          var e := s.entry.value;
          StoredAt(s.writes, e.value, e.readAt) && e.readAt <= s.clock && e.expires <= e.readAt + cfg.delay + cfg.ttl)
    && (forall r | r in s.returned ::
          r.at <= s.clock && StoredWithin(s.writes, r.value, r.at - cfg.ttl - cfg.delay, r.at))
  }

  /** A later write does not change what was stored before. */
  lemma WriteKeepsPast(writes: seq<Write>, w: Write, value: User, m: int)
    requires StoredAt(writes, value, m) && m <= w.at
    ensures StoredAt(writes + [w], value, m)
  {
    var i :| 0 <= i < |writes| && HeldBy(writes, i, value, m);
    assert HeldBy(writes + [w], i, value, m);
  }

  lemma StoreKeepsInv(cfg: Config, s: State, a: Action)
    requires ValidConfig(cfg) && Inv(cfg, s) && a.Store?
    ensures Inv(cfg, Apply(cfg, s, a))
  {
    var w := Write(s.clock, a.value);
    forall value, m | StoredAt(s.writes, value, m) && m <= s.clock
      ensures StoredAt(s.writes + [w], value, m)
    {
      WriteKeepsPast(s.writes, w, value, m);
    }
    forall r | r in s.returned
      ensures StoredWithin(s.writes + [w], r.value, r.at - cfg.ttl - cfg.delay, r.at)
    {
      var m :| r.at - cfg.ttl - cfg.delay < m <= r.at && StoredAt(s.writes, r.value, m);
      assert StoredAt(s.writes + [w], r.value, m);
    }
  }

  lemma StepKeepsInv(cfg: Config, s: State, a: Action)
    requires ValidConfig(cfg) && Inv(cfg, s) && Enabled(cfg, s, a)
    ensures Inv(cfg, Apply(cfg, s, a))
  {
    match a
    case Store(_) => StoreKeepsInv(cfg, s, a);
    case ReadStore(g) => assert HeldBy(s.writes, |s.writes| - 1, Stored(s).value, s.clock);
    case Hit =>
      var e := s.entry.value;
      assert StoredWithin(s.writes, e.value, s.clock - cfg.ttl - cfg.delay, s.clock);
    case Finish(g) =>
      var r := s.readers[g];
      assert StoredWithin(s.writes, r.value, s.clock - cfg.ttl - cfg.delay, s.clock);
    case Tick(_) =>
    case SetCache(_) =>
    case Forget =>
  }

  lemma {:induction false} RunKeepsInv(cfg: Config, s: State, steps: seq<Action>)
    requires ValidConfig(cfg) && Inv(cfg, s)
    ensures Exec(cfg, s, steps).Some? ==> Inv(cfg, Exec(cfg, s, steps).value)
    decreases |steps|
  {
    if steps != [] && Enabled(cfg, s, steps[0]) {
      StepKeepsInv(cfg, s, steps[0]);
      RunKeepsInv(cfg, Apply(cfg, s, steps[0]), steps[1..]);
    }
  }

  /** Bounded staleness: whatever a call gives back was the stored user at some moment less than
      ttl + delay before, in any interleaving, whichever invalidations are lost or overtaken. */
  lemma BoundedStaleness(cfg: Config, s: State, r: Return)
    requires ValidConfig(cfg) && Reachable(cfg, s) && r in s.returned
    ensures StoredWithin(s.writes, r.value, r.at - cfg.ttl - cfg.delay, r.at)
  {
    var steps :| Exec(cfg, INITIAL, steps) == Some(s);
    RunKeepsInv(cfg, INITIAL, steps);
  }

  lemma ReachableStep(cfg: Config, s: State, a: Action)
    requires Reachable(cfg, s) && Enabled(cfg, s, a)
    ensures Reachable(cfg, Apply(cfg, s, a))
  {
    var steps :| Exec(cfg, INITIAL, steps) == Some(s);
    ExecAppend(cfg, INITIAL, steps, [a]);
    assert Exec(cfg, s, [a]) == Some(Apply(cfg, s, a));
  }

  lemma {:induction false} ExecAppend(cfg: Config, s: State, first: seq<Action>, second: seq<Action>)
    requires Exec(cfg, s, first).Some?
    ensures Exec(cfg, s, first + second) == Exec(cfg, Exec(cfg, s, first).value, second)
    decreases |first|
  {
    if first == [] {
      assert first + second == second;
    } else {
      assert (first + second)[1..] == first[1..] + second;
      ExecAppend(cfg, Apply(cfg, s, first[0]), first[1..], second);
    }
  }

  lemma Step(cfg: Config, s: State, a: Action) returns (t: State)
    requires Reachable(cfg, s) && Enabled(cfg, s, a)
    ensures t == Apply(cfg, s, a) && Reachable(cfg, t)
  {
    t := Apply(cfg, s, a);
    ReachableStep(cfg, s, a);
  }

  /** One read, one write right after it that reaches the cache, and the set of the old value as late as allowed. */
  lemma LateSet(cfg: Config, before: User, after: User) returns (s: State)
    requires ValidConfig(cfg)
    ensures Reachable(cfg, s) && s.clock == cfg.delay && s.readers == map[]
    ensures s.writes == [Write(0, Some(before)), Write(0, Some(after))]
    ensures s.entry == Some(Entry(before, cfg.delay + cfg.ttl, 0))
  {
    assert Exec(cfg, INITIAL, []) == Some(INITIAL);
    s := Step(cfg, INITIAL, Store(Some(before)));
    s := Step(cfg, s, ReadStore(1));
    s := Step(cfg, s, Store(Some(after)));
    s := Step(cfg, s, Forget);
    s := Step(cfg, s, Tick(cfg.delay));
    s := Step(cfg, s, SetCache(1));
    s := Step(cfg, s, Finish(1));
  }

  /** The bound cannot be lowered: in this run the value was replaced right after it was read, and it is
      given back ttl + delay - 1 later, although the invalidation of the new value did reach the cache. */
  lemma StalenessBoundTight(cfg: Config) returns (s: State, r: Return)
    requires ValidConfig(cfg)
    ensures Reachable(cfg, s) && r in s.returned
    ensures !StoredWithin(s.writes, r.value, r.at - cfg.ttl - cfg.delay + 1, r.at)
  {
    var before := User(1, "Ann", "ann@example.com", 30, ROLE_USER, "", 0, 0);
    var after := before.(age := 31);
    s := LateSet(cfg, before, after);
    s := Step(cfg, s, Tick(cfg.delay + cfg.ttl - 1));
    s := Step(cfg, s, Hit);
    r := Return(cfg.delay + cfg.ttl - 1, before);
    assert s.returned[|s.returned| - 1] == r;
  }
}
