/** What the database's operations do is what the step systems of the pipeline and of the sessions do. */
module DatabaseSteps {
  import opened Wrappers
  import opened TokenTable
  import opened Users
  import opened Identity
  import Creators
  import Pipeline
  import Sessions

  // ----- creation is one step of the pipeline -----

  ghost predicate ShowsOutbox(t: Tables, born: map<int, Pipeline.Registration>, eventOf: map<int, int>, p: Pipeline.State) {
    p.rows == t.outbox && p.born == born && p.eventOf == eventOf
  }

  /** All three create paths add their user and its event as the pipeline's Create step does. */
  lemma CreationIsStep(cfg: Pipeline.Config, p: Pipeline.State, t: Tables, born: map<int, Pipeline.Registration>,
                       eventOf: map<int, int>, next: Sequences, user: User, now: int)
    requires DbOk(t, born, eventOf, next) && ShowsOutbox(t, born, eventOf, p) && user.id == next.user
    ensures
      var who := Pipeline.Registration(user.email, user.role);
      var step := Pipeline.Create(user.id, next.event, who, now);
      && Pipeline.Enabled(cfg, p, step)
      && ShowsOutbox(WithUser(t, user, next.event, now), born[user.id := who], eventOf[user.id := next.event],
                     Pipeline.Apply(cfg, p, step))
  {
  }

  // ----- creation is a run of the overlapping creators, with nobody else -----

  ghost predicate ShowsCreators(t: Tables, born: map<int, Pipeline.Registration>, eventOf: map<int, int>,
                                next: Sequences, c: Creators.Table)
  {
    && c.emails.Keys == t.users.Keys && (forall u | u in t.users :: c.emails[u] == t.users[u].email)
    && c.outbox == t.outbox && c.born == born && c.eventOf == eventOf && c.open == map[]
    && c.nextUser == next.user && c.nextEvent == next.event
  }

  /** An insert that nobody else's email stands in the way of goes through to the commit. */
  lemma InsertIsRun(t: Tables, born: map<int, Pipeline.Registration>, eventOf: map<int, int>, next: Sequences,
                    c: Creators.Table, x: int, user: User, now: int)
    returns (end: Creators.Table)
    requires c.open == map[x := Creators.Checked(Pipeline.Registration(user.email, user.role))]
    requires ShowsCreators(t, born, eventOf, next, c.(open := map[])) && user.id == next.user
    requires !EmailTaken(t.users, user.email)
    ensures Creators.Exec(true, c, [Creators.Insert(x), Creators.WriteEvent(x, now), Creators.Commit(x)]) == Some(end)
    ensures ShowsCreators(WithUser(t, user, next.event, now), born[user.id := Pipeline.Registration(user.email, user.role)],
                          eventOf[user.id := next.event], next.(user := next.user + 1, event := next.event + 1), end)
  {
    var insert, write, commit := Creators.Insert(x), Creators.WriteEvent(x, now), Creators.Commit(x);
    var inserted := Creators.Apply(true, c, insert);
    var written := Creators.Apply(true, inserted, write);
    end := Creators.Apply(true, written, commit);
    assert [insert, write, commit][1..] == [write, commit] && [write, commit][1..] == [commit];
    assert Creators.Exec(true, written, [commit]) == Some(end);
  }

  /** The check refuses an email in use; any other creation goes through its four steps to what the create paths
      commit. */
  lemma CreationIsRun(t: Tables, born: map<int, Pipeline.Registration>, eventOf: map<int, int>, next: Sequences,
                      c: Creators.Table, x: int, user: User, now: int)
    returns (end: Creators.Table)
    requires ShowsCreators(t, born, eventOf, next, c) && user.id == next.user
    ensures
      var check := Creators.Check(x, Pipeline.Registration(user.email, user.role));
      if exists u :: u in t.users && t.users[u].email == user.email then !Creators.Enabled(true, c, check)
      else
        && Creators.Exec(true, c, [check, Creators.Insert(x), Creators.WriteEvent(x, now), Creators.Commit(x)]) == Some(end)
        && ShowsCreators(WithUser(t, user, next.event, now), born[user.id := Pipeline.Registration(user.email, user.role)],
                         eventOf[user.id := next.event], next.(user := next.user + 1, event := next.event + 1), end)
  {
    var check := Creators.Check(x, Pipeline.Registration(user.email, user.role));
    var rest := [Creators.Insert(x), Creators.WriteEvent(x, now), Creators.Commit(x)];
    if EmailTaken(t.users, user.email) {
      end := c;
    } else {
      var checked := Creators.Apply(true, c, check);
      end := InsertIsRun(t, born, eventOf, next, checked, x, user, now);
      assert ([check] + rest)[1..] == rest;
      assert [check, Creators.Insert(x), Creators.WriteEvent(x, now), Creators.Commit(x)] == [check] + rest;
    }
  }

  // ----- session calls are runs of the session system -----

  /** The session system sees the same users, profiles and tokens; its ids are no further than the sequences. */
  ghost predicate Shows(t: Tables, next: Sequences, s: Sessions.State) {
    && s.users == t.users.Keys && s.tokens == t.tokens && s.nextId <= next.token
    && (forall u | u in s.usedIds :: u < next.user)
    && s.profiles.Keys == t.profiles.Keys && (forall p | p in t.profiles :: s.profiles[p] == t.profiles[p].userId)
  }

  lemma TwoSteps(s: Sessions.State, a: Sessions.Action, b: Sessions.Action) returns (end: Sessions.State)
    requires Sessions.Enabled(s, a) && Sessions.Enabled(Sessions.Apply(s, a), b)
    ensures end == Sessions.Apply(Sessions.Apply(s, a), b) && Sessions.Exec(s, [a, b]) == Some(end)
  {
    end := Sessions.Apply(Sessions.Apply(s, a), b);
    assert [a, b][1..] == [b];
    assert Sessions.Exec(Sessions.Apply(s, a), [b]) == Some(end);
  }

  lemma RegisterIsRun(t: Tables, next: Sequences, s: Sessions.State, user: User, hash: string, expiresAt: int, now: int)
    returns (end: Sessions.State)
    requires Shows(t, next, s) && user.id == next.user && !HashTaken(t.tokens, hash)
    ensures Sessions.Exec(s, [Sessions.Burn(next.token), Sessions.Register(user.id, hash, expiresAt)]) == Some(end)
    ensures Shows(Registered(t, next, user, hash, expiresAt, now), Bumped(next), end)
  {
    end := TwoSteps(s, Sessions.Burn(next.token), Sessions.Register(user.id, hash, expiresAt));
  }

  lemma CreateIsRun(t: Tables, next: Sequences, s: Sessions.State, user: User, bio: Option<string>, now: int)
    returns (end: Sessions.State)
    requires Shows(t, next, s) && user.id == next.user && next.profile !in t.profiles
    ensures
      var profile := if bio.Some? then Some(next.profile) else None;
      Sessions.Exec(s, [Sessions.Burn(next.token), Sessions.CreateUser(user.id, profile)]) == Some(end)
    ensures
      var created := WithUser(t, user, next.event, now);
      Shows(if bio.Some? then WithProfile(created, next.profile, user.id, bio.value) else created, Bumped(next), end)
  {
    end := TwoSteps(s, Sessions.Burn(next.token),
                    Sessions.CreateUser(user.id, if bio.Some? then Some(next.profile) else None));
  }

  lemma LoginIsRun(t: Tables, next: Sequences, s: Sessions.State, userId: int, hash: string, expiresAt: int)
    returns (end: Sessions.State)
    requires Shows(t, next, s) && userId in t.users && !HashTaken(t.tokens, hash)
    ensures Sessions.Exec(s, [Sessions.Burn(next.token), Sessions.Login(userId, hash, expiresAt)]) == Some(end)
    ensures Shows(WithToken(t, next.token, userId, hash, expiresAt), next.(token := next.token + 1), end)
  {
    end := TwoSteps(s, Sessions.Burn(next.token), Sessions.Login(userId, hash, expiresAt));
  }

  /** A refresh that commits is its read phase and its revoke-and-commit phase with nothing in between. */
  lemma RefreshIsRun(before: Tables, after: Tables, next: Sequences, s: Sessions.State, x: int, hash: string,
                     newHash: string, expiresAt: int)
    returns (spent: int, end: Sessions.State)
    requires TablesOk(before) && Shows(before, next, s) && x !in s.refreshes
    requires RefreshedFrom(before, after, hash, next.token, newHash, expiresAt, s.clock)
    ensures Sessions.Exec(s, [Sessions.Burn(next.token), Sessions.RefreshRead(x, spent),
                              Sessions.RefreshFinish(x, newHash, expiresAt, false)]) == Some(end)
    ensures Shows(after, Bumped(next), end)
    ensures next.token in end.parents && end.parents[next.token] == Some(spent)
  {
    spent :| RefreshedAs(before, after, spent, hash, next.token, newHash, expiresAt, s.clock);
    var burn, read := Sessions.Burn(next.token), Sessions.RefreshRead(x, spent);
    var finish := Sessions.RefreshFinish(x, newHash, expiresAt, false);
    var s1 := Sessions.Apply(s, burn);
    end := TwoSteps(s1, read, finish);
    assert [burn, read, finish][1..] == [read, finish];
  }

  /** A refresh that fails after its check leaves nothing behind but the sequence values it has used. */
  lemma RolledBackIsRun(t: Tables, next: Sequences, s: Sessions.State, x: int, id: int, newHash: string, expiresAt: int)
    returns (end: Sessions.State)
    requires TablesOk(t) && Shows(t, next, s) && x !in s.refreshes
    requires id in t.tokens && t.tokens[id].revokedAt.None? && s.clock < t.tokens[id].expiresAt
    ensures Sessions.Exec(s, [Sessions.Burn(next.token), Sessions.RefreshRead(x, id),
                              Sessions.RefreshFinish(x, newHash, expiresAt, true)]) == Some(end)
    ensures Shows(t, Bumped(next), end) && end.parents == s.parents && end.refreshes == s.refreshes
  {
    var burn, read := Sessions.Burn(next.token), Sessions.RefreshRead(x, id);
    var finish := Sessions.RefreshFinish(x, newHash, expiresAt, true);
    end := TwoSteps(Sessions.Apply(s, burn), read, finish);
    assert [burn, read, finish][1..] == [read, finish];
  }

  lemma LogoutIsRun(t: Tables, next: Sequences, s: Sessions.State, y: int, id: int)
    returns (end: Sessions.State)
    requires Shows(t, next, s) && y !in s.logouts && Revocable(t.tokens, id)
    ensures Sessions.Exec(s, [Sessions.LogoutRead(y, id), Sessions.LogoutRevoke(y, false)]) == Some(end)
    ensures Shows(t.(tokens := Revoked(t.tokens, id, s.clock)), next, end)
  {
    end := TwoSteps(s, Sessions.LogoutRead(y, id), Sessions.LogoutRevoke(y, false));
  }

  lemma FailedLogoutIsRun(t: Tables, next: Sequences, s: Sessions.State, y: int, id: int) returns (end: Sessions.State)
    requires Shows(t, next, s) && y !in s.logouts && id in t.tokens && t.tokens[id].revokedAt.None?
    ensures Sessions.Exec(s, [Sessions.LogoutRead(y, id), Sessions.LogoutRevoke(y, true)]) == Some(end)
    ensures Shows(t, next, end) && end.ended == s.ended && end.logouts == s.logouts
  {
    end := TwoSteps(s, Sessions.LogoutRead(y, id), Sessions.LogoutRevoke(y, true));
  }

  lemma DeleteIsStep(t: Tables, next: Sequences, s: Sessions.State, userId: int)
    requires Shows(t, next, s) && userId in t.users
    ensures Sessions.Enabled(s, Sessions.DeleteUser(userId))
    ensures Shows(WithoutUser(t, userId), next, Sessions.Apply(s, Sessions.DeleteUser(userId)))
  {
    var left, end := WithoutUser(t, userId), Sessions.Apply(s, Sessions.DeleteUser(userId));
    assert left.users.Keys == t.users.Keys - {userId};
    forall p
      ensures p in left.profiles <==> p in end.profiles
    {
      assert p in t.profiles ==> s.profiles[p] == t.profiles[p].userId;
    }
  }
}
