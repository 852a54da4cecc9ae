/** Every history of calls of the database, from the empty tables on: which events it leaves behind. */
module DatabaseHistory {
  import opened EventFormat
  import opened Identity
  import opened Pipeline
  import opened PipelineInvariants

  const EMPTY := Moment(Tables(map[], map[], map[], map[]), Sequences(1, 1, 1, 1))

  /** The database before and after each of any number of operations. */
  ghost predicate History(h: seq<Moment>) {
    h != [] && h[0] == EMPTY && forall i | 0 < i < |h| :: Follows(h[i - 1], h[i])
  }

  function Last(h: seq<Moment>): Moment
    requires h != []
  {
    h[|h| - 1]
  }

  function Init(h: seq<Moment>): seq<Moment>
    requires h != []
  {
    h[..|h| - 1]
  }

  /** Every user a history creates, as it was created. */
  ghost function Born(h: seq<Moment>): map<int, Registration>
    requires History(h)
  {
    if |h| == 1 then map[]
    else if Creation(Last(Init(h)), Last(h)) then
      var u := Last(Init(h)).next.user;
      Born(Init(h))[u := Registration(Last(h).tables.users[u].email, Last(h).tables.users[u].role)]
    else Born(Init(h))
  }

  ghost function EventOf(h: seq<Moment>): map<int, int>
    requires History(h)
  {
    if |h| == 1 then map[]
    else if Creation(Last(Init(h)), Last(h)) then EventOf(Init(h))[Last(Init(h)).next.user := Last(Init(h)).next.event]
    else EventOf(Init(h))
  }

  ghost predicate Recorded(h: seq<Moment>)
    requires History(h)
  {
    && Linked(Born(h), EventOf(h), Last(h).tables.outbox)
    && (forall u | u in Born(h) :: u < Last(h).next.user)
    && (forall id | id in Last(h).tables.outbox :: id < Last(h).next.event)
    && Last(h).tables.users.Keys <= Born(h).Keys
  }

  lemma {:induction false} HistoryRecorded(h: seq<Moment>)
    requires History(h)
    ensures Recorded(h)
    decreases |h|
  {
    if |h| > 1 {
      var m, n := Last(Init(h)), Last(h);
      HistoryRecorded(Init(h));
      if Creation(m, n) {
        var user := Registration(n.tables.users[m.next.user].email, n.tables.users[m.next.user].role);
        LinkedCreate(Born(Init(h)), EventOf(Init(h)), m.tables.outbox, m.next.user, user, m.next.event,
                     n.tables.outbox[m.next.event].createdAt);
      }
    }
  }

  /** The users of a history are those its steps created. */
  lemma {:induction false} BornOnce(h: seq<Moment>, i: nat, u: int)
    requires History(h) && 0 < i < |h| && u !in h[i - 1].tables.users && u in h[i].tables.users
    ensures u in Born(h)
    ensures Born(h)[u] == Registration(h[i].tables.users[u].email, h[i].tables.users[u].role)
    decreases |h|
  {
    HistoryRecorded(Init(h));
    if i == |h| - 1 {
      assert Follows(h[i - 1], h[i]);
    } else {
      BornOnce(Init(h), i, u);
    }
  }

  lemma {:induction false} BornWasThere(h: seq<Moment>, u: int) returns (i: nat)
    requires History(h) && u in Born(h)
    ensures i < |h| && u in h[i].tables.users
    decreases |h|
  {
    if Creation(Last(Init(h)), Last(h)) && u == Last(Init(h)).next.user {
      i := |h| - 1;
    } else {
      i := BornWasThere(Init(h), u);
    }
  }

  lemma {:induction false} ThereWasBorn(h: seq<Moment>, i: nat, u: int)
    requires History(h) && i < |h| && u in h[i].tables.users
    ensures u in Born(h)
    decreases |h|
  {
    HistoryRecorded(h);
    if i < |h| - 1 {
      ThereWasBorn(Init(h), i, u);
    }
  }

  /** After any history of calls, committed, failed or rolled back, a user has an event exactly if it ever was in
      the table, it has only one, and that tells of the user as it was when it first appeared, whatever was updated
      or deleted since. */
  lemma EventsMatchUsers(h: seq<Moment>, u: int)
    requires History(h)
    ensures var outbox := Last(h).tables.outbox;
      && ((exists i :: 0 <= i < |h| && u in h[i].tables.users) <==> exists id :: id in outbox && IsFor(outbox[id], u))
      && (forall i, j | i in outbox && j in outbox && IsFor(outbox[i], u) && IsFor(outbox[j], u) :: i == j)
      && (forall i, id | 0 < i < |h| && u !in h[i - 1].tables.users && u in h[i].tables.users &&
                         id in outbox && IsFor(outbox[id], u) ::
            outbox[id].body == UserRegisteredBody(u, h[i].tables.users[u].email, h[i].tables.users[u].role))
  {
    var outbox := Last(h).tables.outbox;
    HistoryRecorded(h);
    if u in Born(h) {
      var i := BornWasThere(h, u);
      var id := EventOf(h)[u];
      assert id in outbox && IsFor(outbox[id], u);
    }
    forall i | 0 <= i < |h| && u in h[i].tables.users
      ensures u in Born(h)
    {
      ThereWasBorn(h, i, u);
    }
    forall i | 0 < i < |h| && u !in h[i - 1].tables.users && u in h[i].tables.users
      ensures u in Born(h) && Born(h)[u] == Registration(h[i].tables.users[u].email, h[i].tables.users[u].role)
    {
      BornOnce(h, i, u);
    }
  }
}
