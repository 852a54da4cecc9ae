/**
  Creating users from any number of transactions at once, under READ COMMITTED: the check for the email, the inserts
  of the user and of its event, and the commit are separate steps. emailKey says whether users.email is unique, as
  the migration makes it.
 */
module Creators {
  import opened Wrappers
  import opened EventFormat
  import opened OutboxTable
  import opened Pipeline
  import opened PipelineInvariants

  /** How far a create transaction has come; what it has inserted nobody else sees yet. */
  datatype Creation =
    | Checked(user: Registration)
    | Inserted(user: Registration, userId: int)
    | Written(user: Registration, userId: int, eventId: int, createdAt: int)

  /** emails are those of the users in the table now; born and eventOf are the history of all users ever committed. */
  datatype Table = Table(
    emails: map<int, string>, born: map<int, Registration>, eventOf: map<int, int>, outbox: Rows,
    open: map<int, Creation>, nextUser: int, nextEvent: int)

  datatype Step =
    | Check(x: int, user: Registration)
    | Insert(x: int)
    | WriteEvent(x: int, at: int)
    | Commit(x: int)
    | Abort(x: int)
    | Change(userId: int, email: string)
    | Remove(userId: int)

  const EMPTY := Table(map[], map[], map[], map[], map[], 1, 1)

  predicate Taken(t: Table, email: string) {
    exists u | u in t.emails :: t.emails[u] == email
  }

  predicate HasInserted(c: Creation) {
    c.Inserted? || c.Written?
  }

  /** Another open transaction has inserted this email; a unique key makes a second insert wait for it. */
  predicate Locked(t: Table, x: int, email: string) {
    exists y | y in t.open :: y != x && HasInserted(t.open[y]) && t.open[y].user.email == email
  }

  predicate Enabled(emailKey: bool, t: Table, a: Step) {
    match a
    case Check(x, user) => x !in t.open && !Taken(t, user.email)
    case Insert(x) => x in t.open && t.open[x].Checked? && (emailKey ==> !Locked(t, x, t.open[x].user.email))
    case WriteEvent(x, _) => x in t.open && t.open[x].Inserted?
    case Commit(x) => x in t.open && t.open[x].Written?
    case Abort(x) => x in t.open
    case Change(u, email) =>
      && u in t.emails
      && (emailKey ==>
            (forall v | v in t.emails && v != u :: t.emails[v] != email) &&
            (forall y | y in t.open && HasInserted(t.open[y]) :: t.open[y].user.email != email))
    case Remove(u) => u in t.emails
  }

  function Committed(t: Table, c: Creation): Table
    requires c.Written?
  {
    t.(emails := t.emails[c.userId := c.user.email], born := t.born[c.userId := c.user],
       eventOf := t.eventOf[c.userId := c.eventId],
       outbox := t.outbox[c.eventId :=
         NewRow(c.eventId, UserRegisteredBody(c.userId, c.user.email, c.user.role), c.createdAt)])
  }

  function Apply(emailKey: bool, t: Table, a: Step): Table
    requires Enabled(emailKey, t, a)
  {
    match a
    case Check(x, user) => t.(open := t.open[x := Checked(user)])
    case Insert(x) =>
      var user := t.open[x].user;
      if emailKey && Taken(t, user.email) then t.(open := t.open - {x}, nextUser := t.nextUser + 1)
      else t.(open := t.open[x := Inserted(user, t.nextUser)], nextUser := t.nextUser + 1)
    case WriteEvent(x, at) =>
      t.(open := t.open[x := Written(t.open[x].user, t.open[x].userId, t.nextEvent, at)], nextEvent := t.nextEvent + 1)
    case Commit(x) => Committed(t, t.open[x]).(open := t.open - {x})
    case Abort(x) => t.(open := t.open - {x})
    case Change(u, email) => t.(emails := t.emails[u := email])
    case Remove(u) => t.(emails := t.emails - {u})
  }

  function Exec(emailKey: bool, t: Table, steps: seq<Step>): Option<Table>
    decreases |steps|
  {
    if steps == [] then Some(t)
    else if Enabled(emailKey, t, steps[0]) then Exec(emailKey, Apply(emailKey, t, steps[0]), steps[1..])
    else None
  }

  ghost predicate Reachable(emailKey: bool, t: Table) {
    exists steps :: Exec(emailKey, EMPTY, steps) == Some(t)
  }

  // ----- ids and events, with or without the key -----

  /** The ids an open transaction has taken are its own. */
  ghost predicate IdsOk(t: Table) {
    && (forall u | u in t.born :: u < t.nextUser)
    && (forall id | id in t.outbox :: id < t.nextEvent)
    && (forall x | x in t.open && HasInserted(t.open[x]) :: t.open[x].userId < t.nextUser && t.open[x].userId !in t.born)
    && (forall x | x in t.open && t.open[x].Written? :: t.open[x].eventId < t.nextEvent && t.open[x].eventId !in t.outbox)
  }

  ghost predicate IdsApart(t: Table) {
    && (forall x, y | x in t.open && y in t.open && x != y && HasInserted(t.open[x]) && HasInserted(t.open[y]) ::
          t.open[x].userId != t.open[y].userId)
    && (forall x, y | x in t.open && y in t.open && x != y && t.open[x].Written? && t.open[y].Written? ::
          t.open[x].eventId != t.open[y].eventId)
  }

  ghost predicate EventsOk(t: Table) {
    Linked(t.born, t.eventOf, t.outbox) && t.emails.Keys <= t.born.Keys
  }

  lemma InsertKeepsIds(emailKey: bool, t: Table, a: Step)
    requires IdsOk(t) && IdsApart(t) && a.Insert? && Enabled(emailKey, t, a)
    ensures IdsOk(Apply(emailKey, t, a)) && IdsApart(Apply(emailKey, t, a))
  {
  }

  lemma WriteKeepsIds(emailKey: bool, t: Table, a: Step)
    requires IdsOk(t) && IdsApart(t) && a.WriteEvent? && Enabled(emailKey, t, a)
    ensures IdsOk(Apply(emailKey, t, a)) && IdsApart(Apply(emailKey, t, a))
  {
  }

  lemma CommitKeepsIds(emailKey: bool, t: Table, a: Step)
    requires IdsOk(t) && IdsApart(t) && a.Commit? && Enabled(emailKey, t, a)
    ensures IdsOk(Apply(emailKey, t, a)) && IdsApart(Apply(emailKey, t, a))
  {
  }

  lemma StepKeepsIds(emailKey: bool, t: Table, a: Step)
    requires IdsOk(t) && IdsApart(t) && Enabled(emailKey, t, a)
    ensures IdsOk(Apply(emailKey, t, a)) && IdsApart(Apply(emailKey, t, a))
  {
    match a
    case Insert(_) => InsertKeepsIds(emailKey, t, a);
    case WriteEvent(_, _) => WriteKeepsIds(emailKey, t, a);
    case Commit(_) => CommitKeepsIds(emailKey, t, a);
    case _ =>
  }

  lemma StepKeepsEvents(emailKey: bool, t: Table, a: Step)
    requires IdsOk(t) && EventsOk(t) && Enabled(emailKey, t, a)
    ensures EventsOk(Apply(emailKey, t, a))
  {
    if a.Commit? {
      var c := t.open[a.x];
      LinkedCreate(t.born, t.eventOf, t.outbox, c.userId, c.user, c.eventId, c.createdAt);
    }
  }

  lemma {:induction false} RunKeepsEvents(emailKey: bool, t: Table, steps: seq<Step>)
    requires IdsOk(t) && IdsApart(t) && EventsOk(t)
    ensures Exec(emailKey, t, steps).Some? ==> EventsOk(Exec(emailKey, t, steps).value)
    decreases |steps|
  {
    if steps != [] && Enabled(emailKey, t, steps[0]) {
      StepKeepsIds(emailKey, t, steps[0]);
      StepKeepsEvents(emailKey, t, steps[0]);
      RunKeepsEvents(emailKey, Apply(emailKey, t, steps[0]), steps[1..]);
    }
  }

  /** However creators overlap, fail and roll back, every user ever committed has one event, which tells of it as it
      was created, every event tells of such a user, and the users in the table are among them. */
  lemma OneEventEach(emailKey: bool, t: Table, u: int)
    requires Reachable(emailKey, t)
    ensures u in t.emails ==> u in t.born
    ensures u in t.born <==> exists id :: id in t.outbox && IsFor(t.outbox[id], u)
    ensures forall i, j | i in t.outbox && j in t.outbox && IsFor(t.outbox[i], u) && IsFor(t.outbox[j], u) :: i == j
    ensures forall id | id in t.outbox && IsFor(t.outbox[id], u) ::
              u in t.born && t.outbox[id].body == UserRegisteredBody(u, t.born[u].email, t.born[u].role)
  {
    var steps :| Exec(emailKey, EMPTY, steps) == Some(t);
    RunKeepsEvents(emailKey, EMPTY, steps);
    if u in t.born {
      var id := t.eventOf[u];
      assert id in t.outbox && IsFor(t.outbox[id], u);
    }
  }

  /** A commit adds its user and event as one creation step of the pipeline does. */
  lemma CommitIsCreate(cfg: Config, p: State, t: Table, x: int)
    requires IdsOk(t) && x in t.open && t.open[x].Written?
    requires p.rows == t.outbox && p.born == t.born && p.eventOf == t.eventOf
    ensures var c := t.open[x];
      var create := Create(c.userId, c.eventId, c.user, c.createdAt);
      && Pipeline.Enabled(cfg, p, create)
      && var after, next := Committed(t, c), Pipeline.Apply(cfg, p, create);
         next.rows == after.outbox && next.born == after.born && next.eventOf == after.eventOf
  {
  }

  // ----- one user per email, through the key -----

  ghost predicate EmailsUnique(t: Table) {
    forall u, v | u in t.emails && v in t.emails && t.emails[u] == t.emails[v] :: u == v
  }

  /** An email that an open transaction has inserted is nobody else's. */
  ghost predicate EmailsReserved(t: Table) {
    && (forall x, u | x in t.open && HasInserted(t.open[x]) && u in t.emails :: t.emails[u] != t.open[x].user.email)
    && (forall x, y | x in t.open && y in t.open && x != y && HasInserted(t.open[x]) && HasInserted(t.open[y]) ::
          t.open[x].user.email != t.open[y].user.email)
  }

  lemma StepKeepsEmails(t: Table, a: Step)
    requires EmailsUnique(t) && EmailsReserved(t) && Enabled(true, t, a)
    ensures EmailsUnique(Apply(true, t, a)) && EmailsReserved(Apply(true, t, a))
  {
    match a
    case Check(_, _) =>
    case Insert(_) =>
    case WriteEvent(_, _) =>
    case Commit(_) =>
    case Abort(_) =>
    case Change(_, _) =>
    case Remove(_) =>
  }

  lemma {:induction false} RunKeepsEmails(t: Table, steps: seq<Step>)
    requires EmailsUnique(t) && EmailsReserved(t)
    ensures Exec(true, t, steps).Some? ==> EmailsUnique(Exec(true, t, steps).value)
    decreases |steps|
  {
    if steps != [] && Enabled(true, t, steps[0]) {
      StepKeepsEmails(t, steps[0]);
      RunKeepsEmails(Apply(true, t, steps[0]), steps[1..]);
    }
  }

  // ----- without the key -----

  lemma {:induction false} ExecAppend(emailKey: bool, t: Table, first: seq<Step>, second: seq<Step>)
    requires Exec(emailKey, t, first).Some?
    ensures Exec(emailKey, t, first + second) == Exec(emailKey, Exec(emailKey, t, first).value, second)
    decreases |first|
  {
    if first == [] {
      assert first + second == second;
    } else {
      assert (first + second)[1..] == first[1..] + second;
      ExecAppend(emailKey, Apply(emailKey, t, first[0]), first[1..], second);
    }
  }

  lemma Goes(emailKey: bool, t: Table, a: Step) returns (next: Table)
    requires Reachable(emailKey, t) && Enabled(emailKey, t, a)
    ensures next == Apply(emailKey, t, a) && Reachable(emailKey, next)
  {
    next := Apply(emailKey, t, a);
    var steps :| Exec(emailKey, EMPTY, steps) == Some(t);
    ExecAppend(emailKey, EMPTY, steps, [a]);
    assert Exec(emailKey, t, [a]) == Some(next);
  }

  const ANN := Registration("ann@example.com", "USER")

  /** The check does not separate them: two creators of one email both pass it, with the key or without. */
  lemma BothPassTheCheck(emailKey: bool) returns (t: Table)
    ensures Reachable(emailKey, t) && t == EMPTY.(open := map[1 := Checked(ANN), 2 := Checked(ANN)])
  {
    assert Exec(emailKey, EMPTY, []) == Some(EMPTY);
    t := Goes(emailKey, EMPTY, Check(1, ANN));
    t := Goes(emailKey, t, Check(2, ANN));
  }

  /** With the key, whoever inserts second waits, and rolls back once the first has committed. */
  lemma SecondInsertRollsBack(t: Table, x: int, y: int)
    requires x != y && x in t.open && y in t.open && t.open[x].Written? && t.open[y].Checked?
    requires t.open[x].user.email == t.open[y].user.email
    ensures !Enabled(true, t, Insert(y))
    ensures var after := Apply(true, t, Commit(x));
      Enabled(true, after, Insert(y)) ==> y !in Apply(true, after, Insert(y)).open
  {
    var after := Apply(true, t, Commit(x));
    assert after.emails[t.open[x].userId] == t.open[y].user.email;
  }

  lemma BothInsert() returns (t: Table)
    ensures Reachable(false, t)
    ensures t == EMPTY.(open := map[1 := Inserted(ANN, 1), 2 := Inserted(ANN, 2)], nextUser := 3)
  {
    t := BothPassTheCheck(false);
    t := Goes(false, t, Insert(1));
    t := Goes(false, t, Insert(2));
  }

  lemma BothWrite() returns (t: Table)
    ensures Reachable(false, t)
    ensures t == EMPTY.(open := map[1 := Written(ANN, 1, 1, 0), 2 := Written(ANN, 2, 2, 0)], nextUser := 3, nextEvent := 3)
  {
    t := BothInsert();
    t := Goes(false, t, WriteEvent(1, 0));
    t := Goes(false, t, WriteEvent(2, 0));
  }

  /** Without it, both of them get a user. */
  lemma Twins() returns (t: Table)
    ensures Reachable(false, t) && !EmailsUnique(t)
  {
    t := BothWrite();
    t := Goes(false, t, Commit(1));
    t := Goes(false, t, Commit(2));
    assert t.emails[1] == t.emails[2];
  }

  /** It is the unique key, not the check before the insert, that keeps one user per email in every run. */
  lemma EmailKeyIff(emailKey: bool)
    ensures (forall t | Reachable(emailKey, t) :: EmailsUnique(t)) <==> emailKey
  {
    if emailKey {
      forall t | Reachable(emailKey, t)
        ensures EmailsUnique(t)
      {
        var steps :| Exec(true, EMPTY, steps) == Some(t);
        RunKeepsEmails(EMPTY, steps);
      }
    } else {
      var t := Twins();
    }
  }
}
