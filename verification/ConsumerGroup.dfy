/**
  Producers and consumers with Kafka's bookkeeping: a committed offset per partition, and a position for each
  consumer and partition it reads. A record is delivered only from a position, which moves on whatever becomes of
  the record; a consumer joins, or joins again, at the committed offset. Offsets are indices of the whole log: those
  of one partition are in the same order, and the next record of a partition is the first one of it from there on.
 */
module ConsumerGroup {
  import opened Wrappers
  import opened EventFormat
  import opened Pipeline
  import opened EndToEnd
  import Consumers

  /** The partition of the record at each index of the log. */
  type Placement = nat -> int

  /** One assignment of a partition to a consumer. */
  datatype Seat = Seat(consumer: int, partition: int)

  /** The partition of the record a consumer has in hand, and whether its transaction has succeeded. */
  datatype Hand = Hand(partition: int, done: bool)

  datatype Group = Group(
    system: System, committed: map<int, nat>, positions: map<Seat, nat>, hands: map<int, Hand>)

  /** Skip is what a failure does to the rest of a batch, and a fetch error to a whole batch. */
  datatype Move =
    | Make(action: Action)
    | Work(step: Consumers.Action)
    | Join(c: int, p: int)
    | Leave(c: int, p: int)
    | Deliver(c: int, p: int, i: nat)
    | Skip(c: int, p: int, to: nat)
    | CommitOffset(c: int)

  const EMPTY := Group(START, map[], map[], map[])

  function CommittedOf(g: Group, p: int): nat {
    if p in g.committed then g.committed[p] else 0
  }

  /** The record at i is the first of the partition from an offset on. */
  ghost predicate IsNext(place: Placement, p: int, offset: nat, i: nat) {
    offset <= i && place(i) == p && forall j: nat | offset <= j < i :: place(j) != p
  }

  ghost predicate CanMove(cfg: Config, place: Placement, g: Group, m: Move) {
    match m
    case Make(p) => Enabled(cfg, g.system.made, p)
    case Work(a) => !a.Take? && Consumers.Enabled(true, g.system.made.log, g.system.read, a)
    case Join(_, _) => true
    case Leave(c, p) => Seat(c, p) in g.positions
    case Deliver(c, p, i) =>
      && Seat(c, p) in g.positions && IsNext(place, p, g.positions[Seat(c, p)], i)
      && Consumers.Enabled(true, g.system.made.log, g.system.read, Consumers.Take(c, i))
    case Skip(c, p, to) =>
      && Seat(c, p) in g.positions && g.positions[Seat(c, p)] <= to <= |g.system.made.log|
      && Consumers.TxOf(g.system.read, c).Idle?
    case CommitOffset(c) => c in g.hands && g.hands[c].done && Seat(c, g.hands[c].partition) in g.positions
  }

  /** What a step of a transaction means for the record in hand: it is done when the transaction has committed or
      found its event processed, and given up when it has failed. */
  function HandsAfter(hands: map<int, Hand>, k: Consumers.State, a: Consumers.Action): map<int, Hand> {
    match a
    case Commit(c) => if c in hands then hands[c := hands[c].(done := true)] else hands
    case Read(c) =>
      var tx := Consumers.TxOf(k, c);
      if c in hands && tx.Reading? && tx.event.eventId in k.processed then hands[c := hands[c].(done := true)] else hands
    case Insert(c) =>
      var tx := Consumers.TxOf(k, c);
      if tx.Handling? && AuditFor(tx.event).Ok? &&
         AuditFor(tx.event).value.sourceEventId !in Consumers.Sources(k.audit) then hands
      else hands - {c}
    case Abort(c) => hands - {c}
    case _ => hands
  }

  /** A consumer whose position has been moved commits no offset for what it had in hand. */
  function Dropped(hands: map<int, Hand>, c: int, p: int): map<int, Hand> {
    if c in hands && hands[c].partition == p then hands - {c} else hands
  }

  function Moved(cfg: Config, place: Placement, g: Group, m: Move): Group
    requires CanMove(cfg, place, g, m)
  {
    match m
    case Make(p) => g.(system := Take(cfg, true, g.system, Produce(p)))
    case Work(a) =>
      g.(system := Take(cfg, true, g.system, Consume(a)), hands := HandsAfter(g.hands, g.system.read, a))
    case Join(c, p) =>
      g.(positions := g.positions[Seat(c, p) := CommittedOf(g, p)], hands := Dropped(g.hands, c, p))
    case Leave(c, p) => g.(positions := g.positions - {Seat(c, p)}, hands := Dropped(g.hands, c, p))
    case Deliver(c, p, i) =>
      g.(system := Take(cfg, true, g.system, Consume(Consumers.Take(c, i))),
         positions := g.positions[Seat(c, p) := i + 1], hands := g.hands[c := Hand(p, false)])
    case Skip(c, p, to) => g.(positions := g.positions[Seat(c, p) := to], hands := Dropped(g.hands, c, p))
    case CommitOffset(c) =>
      var p := g.hands[c].partition;
      g.(committed := g.committed[p := g.positions[Seat(c, p)]], hands := g.hands - {c})
  }

  ghost function Moves(cfg: Config, place: Placement, g: Group, moves: seq<Move>): Option<Group>
    decreases |moves|
  {
    if moves == [] then Some(g)
    else if CanMove(cfg, place, g, moves[0]) then Moves(cfg, place, Moved(cfg, place, g, moves[0]), moves[1..])
    else None
  }

  /** Some continuation leads from g to h. */
  ghost predicate Leads(cfg: Config, place: Placement, g: Group, h: Group) {
    exists moves :: Moves(cfg, place, g, moves) == Some(h)
  }

  lemma GroupStays(cfg: Config, place: Placement, g: Group)
    ensures Leads(cfg, place, g, g)
  {
    assert Moves(cfg, place, g, []) == Some(g);
  }

  lemma {:induction false} MovesAppend(cfg: Config, place: Placement, g: Group, first: seq<Move>, second: seq<Move>)
    requires Moves(cfg, place, g, first).Some?
    ensures Moves(cfg, place, g, first + second) == Moves(cfg, place, Moves(cfg, place, g, first).value, second)
    decreases |first|
  {
    if first == [] {
      assert first + second == second;
    } else {
      assert (first + second)[1..] == first[1..] + second;
      MovesAppend(cfg, place, Moved(cfg, place, g, first[0]), first[1..], second);
    }
  }

  lemma LeadsOn(cfg: Config, place: Placement, g: Group, m: Group, h: Group)
    requires Leads(cfg, place, g, m) && Leads(cfg, place, m, h)
    ensures Leads(cfg, place, g, h)
  {
    var first :| Moves(cfg, place, g, first) == Some(m);
    var second :| Moves(cfg, place, m, second) == Some(h);
    MovesAppend(cfg, place, g, first, second);
  }

  lemma LeadsMove(cfg: Config, place: Placement, g: Group, m: Group, move: Move) returns (h: Group)
    requires Leads(cfg, place, g, m) && CanMove(cfg, place, m, move)
    ensures h == Moved(cfg, place, m, move) && Leads(cfg, place, g, h)
  {
    h := Moved(cfg, place, m, move);
    assert [move][1..] == [];
    assert Moves(cfg, place, m, [move]) == Some(h);
    LeadsOn(cfg, place, g, m, h);
  }

  /** A record is delivered, and a transaction for it begins. */
  lemma LeadsDeliver(cfg: Config, place: Placement, g: Group, m: Group, seat: Seat, i: nat) returns (h: Group)
    requires Leads(cfg, place, g, m) && seat in m.positions && IsNext(place, seat.partition, m.positions[seat], i)
    requires Consumers.TxOf(m.system.read, seat.consumer).Idle?
    requires i < |m.system.made.log| && ParseRecord(m.system.made.log[i]).Ok?
    ensures Leads(cfg, place, g, h) && h.system.made == m.system.made && h.committed == m.committed
    ensures h.system.read == m.system.read.(
              txs := m.system.read.txs[seat.consumer := Consumers.Reading(ParseRecord(m.system.made.log[i]).value)])
    ensures h.positions == m.positions[seat := i + 1]
    ensures h.hands == m.hands[seat.consumer := Hand(seat.partition, false)]
  {
    assert seat == Seat(seat.consumer, seat.partition);
    h := LeadsMove(cfg, place, g, m, Deliver(seat.consumer, seat.partition, i));
  }

  lemma {:induction false} MakesAreMoves(cfg: Config, place: Placement, g: Group, steps: seq<Action>)
    requires Exec(cfg, g.system.made, steps).Some?
    ensures Leads(cfg, place, g, g.(system := System(Exec(cfg, g.system.made, steps).value, g.system.read)))
    decreases |steps|
  {
    GroupStays(cfg, place, g);
    if steps != [] {
      var next := LeadsMove(cfg, place, g, g, Make(steps[0]));
      MakesAreMoves(cfg, place, next, steps[1..]);
      LeadsOn(cfg, place, g, next, g.(system := System(Exec(cfg, g.system.made, steps).value, g.system.read)));
    }
  }

  /** The producing half can go on as it can without consumers. */
  lemma LeadsMakes(cfg: Config, place: Placement, g: Group, t: State)
    requires Continues(cfg, g.system.made, t)
    ensures Leads(cfg, place, g, g.(system := System(t, g.system.read)))
  {
    var steps :| Exec(cfg, g.system.made, steps) == Some(t);
    MakesAreMoves(cfg, place, g, steps);
  }

  lemma {:induction false} WorksAreMoves(cfg: Config, place: Placement, g: Group, steps: seq<Consumers.Action>)
    returns (h: Group)
    requires Consumers.NoTake(steps)
    requires Consumers.Exec(true, g.system.made.log, g.system.read, steps).Some?
    ensures Leads(cfg, place, g, h) && h.committed == g.committed && h.positions == g.positions
    ensures h.system ==
            System(g.system.made, Consumers.Exec(true, g.system.made.log, g.system.read, steps).value)
    decreases |steps|
  {
    GroupStays(cfg, place, g);
    h := g;
    if steps != [] {
      var next := LeadsMove(cfg, place, g, g, Work(steps[0]));
      h := WorksAreMoves(cfg, place, next, steps[1..]);
      LeadsOn(cfg, place, g, next, h);
    }
  }

  /** So can the transactions that are open. */
  lemma LeadsWorks(cfg: Config, place: Placement, g: Group, k: Consumers.State) returns (h: Group)
    requires Consumers.Continues(g.system.made.log, g.system.read, k)
    ensures Leads(cfg, place, g, h) && h.system == System(g.system.made, k)
    ensures h.committed == g.committed && h.positions == g.positions
  {
    var steps :| Consumers.NoTake(steps) &&
                 Consumers.Exec(true, g.system.made.log, g.system.read, steps) == Some(k);
    h := WorksAreMoves(cfg, place, g, steps);
  }

  // ----- every run of the group is a run of the system -----

  lemma {:induction false} LeadsSystem(cfg: Config, place: Placement, g: Group, moves: seq<Move>)
    requires Reaches(cfg, true, g.system)
    ensures Moves(cfg, place, g, moves).Some? ==> Reaches(cfg, true, Moves(cfg, place, g, moves).value.system)
    decreases |moves|
  {
    if moves != [] && CanMove(cfg, place, g, moves[0]) {
      match moves[0] {
        case Make(p) => ReachesStep(cfg, true, g.system, Produce(p));
        case Work(a) => ReachesStep(cfg, true, g.system, Consume(a));
        case Deliver(c, _, i) => ReachesStep(cfg, true, g.system, Consume(Consumers.Take(c, i)));
        case _ =>
      }
      LeadsSystem(cfg, place, Moved(cfg, place, g, moves[0]), moves[1..]);
    }
  }

  /** Whatever holds of every run of producers and freely reading consumers holds of every run of the group. */
  lemma GroupIsSystem(cfg: Config, place: Placement, g: Group)
    requires Leads(cfg, place, EMPTY, g)
    ensures Reaches(cfg, true, g.system)
  {
    assert Run(cfg, true, START, []) == Some(START);
    var moves :| Moves(cfg, place, EMPTY, moves) == Some(g);
    LeadsSystem(cfg, place, EMPTY, moves);
  }

  // ----- invariants -----

  /** No offset is beyond the end of the log. */
  ghost predicate OffsetsOk(g: Group) {
    && (forall p | p in g.committed :: g.committed[p] <= |g.system.made.log|)
    && (forall seat | seat in g.positions :: g.positions[seat] <= |g.system.made.log|)
  }

  ghost predicate GroupInv(cfg: Config, g: Group) {
    SystemInv(cfg, g.system) && OffsetsOk(g)
  }

  lemma StepKeepsSystem(cfg: Config, s: System, step: Step)
    requires ValidConfig(cfg) && SystemInv(cfg, s) && CanStep(cfg, true, s, step)
    ensures SystemInv(cfg, Take(cfg, true, s, step))
  {
    assert [step][1..] == [];
    assert Run(cfg, true, Take(cfg, true, s, step), []).Some?;
    RunKeepsSystem(cfg, s, [step]);
  }

  lemma MoveKeepsOffsets(cfg: Config, place: Placement, g: Group, m: Move)
    requires OffsetsOk(g) && CanMove(cfg, place, g, m)
    ensures OffsetsOk(Moved(cfg, place, g, m))
  {
    assert |g.system.made.log| <= |Moved(cfg, place, g, m).system.made.log|;
  }

  lemma MoveKeepsSystem(cfg: Config, place: Placement, g: Group, m: Move)
    requires ValidConfig(cfg) && SystemInv(cfg, g.system) && CanMove(cfg, place, g, m)
    ensures SystemInv(cfg, Moved(cfg, place, g, m).system)
  {
    match m
    case Make(p) => StepKeepsSystem(cfg, g.system, Produce(p));
    case Work(a) => StepKeepsSystem(cfg, g.system, Consume(a));
    case Deliver(c, _, i) => StepKeepsSystem(cfg, g.system, Consume(Consumers.Take(c, i)));
    case _ =>
  }

  lemma {:induction false} MovesKeepInv(cfg: Config, place: Placement, g: Group, moves: seq<Move>)
    requires ValidConfig(cfg) && GroupInv(cfg, g)
    ensures Moves(cfg, place, g, moves).Some? ==> GroupInv(cfg, Moves(cfg, place, g, moves).value)
    decreases |moves|
  {
    if moves != [] && CanMove(cfg, place, g, moves[0]) {
      MoveKeepsOffsets(cfg, place, g, moves[0]);
      MoveKeepsSystem(cfg, place, g, moves[0]);
      MovesKeepInv(cfg, place, Moved(cfg, place, g, moves[0]), moves[1..]);
    }
  }

  lemma LeadsKeepsInv(cfg: Config, place: Placement, g: Group, h: Group)
    requires ValidConfig(cfg) && GroupInv(cfg, g) && Leads(cfg, place, g, h)
    ensures GroupInv(cfg, h)
  {
    var moves :| Moves(cfg, place, g, moves) == Some(h);
    MovesKeepInv(cfg, place, g, moves);
  }

  lemma ReachedInv(cfg: Config, place: Placement, g: Group)
    requires ValidConfig(cfg) && Leads(cfg, place, EMPTY, g)
    ensures GroupInv(cfg, g)
  {
    assert Run(cfg, true, START, []) == Some(START);
    ReachesInv(cfg, START);
    LeadsKeepsInv(cfg, place, EMPTY, g);
  }
}
