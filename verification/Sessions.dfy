/**
  Refresh-token rotation under concurrent transactions. Refresh and Logout are each split where
  another statement can come between: after the read, and before the conditional revoke. The revoke
  is the last statement of a refresh and holds the row lock until the commit, so the two are one step.
 */
module Sessions {
  import opened Wrappers
  import opened TokenTable

  /** A refresh that has passed its checks and inserted its new row, which nobody else sees yet. */
  datatype OpenRefresh = OpenRefresh(spent: int, userId: int, newId: int)

  /** parents is the history of all tokens ever committed, with the token each was issued for, and roots
      names the Login or Register each goes back to; started and ended count, per user, the Logins and
      Registers, and the Logouts that revoked a row. A Burn is an id that a rolled-back insert has used up. */
  datatype State = State(
    clock: int, nextId: int, users: set<int>, usedIds: set<int>, profiles: map<int, int>, tokens: Tokens,
    refreshes: map<int, OpenRefresh>, logouts: map<int, int>,
    parents: map<int, Option<int>>, roots: map<int, int>, started: multiset<int>, ended: multiset<int>)

  datatype Action =
    | Tick(to: int)
    | Burn(to: int)
    | CreateUser(userId: int, profile: Option<int>)
    | Register(userId: int, hash: string, expiresAt: int)
    | DeleteUser(userId: int)
    | Login(userId: int, hash: string, expiresAt: int)
    | RefreshRead(x: int, id: int)
    | RefreshFinish(x: int, hash: string, expiresAt: int, fails: bool)
    | LogoutRead(y: int, id: int)
    | LogoutRevoke(y: int, fails: bool)

  const INITIAL := State(0, 1, {}, {}, map[], map[], map[], map[], map[], map[], multiset{}, multiset{})

  /** The last step of a refresh takes effect: the old token is still there and not revoked, the user
      still exists, and the new hash collides with none. Otherwise the transaction rolls back. */
  ghost predicate Commits(s: State, x: int, hash: string, fails: bool)
    requires x in s.refreshes
  {
    var r := s.refreshes[x];
    !fails && Revocable(s.tokens, r.spent) && r.userId in s.users && HashFree(s.tokens, hash)
  }

  ghost predicate Enabled(s: State, a: Action) {
    match a
    case Tick(to) => s.clock <= to
    case Burn(to) => s.nextId <= to
    case CreateUser(userId, profile) => userId !in s.usedIds && (profile.Some? ==> profile.value !in s.profiles)
    case Register(userId, hash, _) => userId !in s.usedIds && HashFree(s.tokens, hash)
    case DeleteUser(userId) => userId in s.users
    case Login(userId, hash, _) => userId in s.users && HashFree(s.tokens, hash)
    case RefreshRead(x, id) =>
      x !in s.refreshes && id in s.tokens && IsActive(s.tokens[id], s.clock) && s.tokens[id].userId in s.users
    case RefreshFinish(x, _, _, _) => x in s.refreshes
    case LogoutRead(y, id) => y !in s.logouts && id in s.tokens && !IsRevoked(s.tokens[id])
    case LogoutRevoke(y, _) => y in s.logouts
  }

  function NewToken(s: State, id: int, userId: int, hash: string, expiresAt: int): Tokens {
    s.tokens[id := Token(userId, hash, expiresAt, None)]
  }

  ghost function Apply(s: State, a: Action): State
    requires Enabled(s, a)
  {
    match a
    case Tick(to) => s.(clock := to)
    case Burn(to) => s.(nextId := to)
    case CreateUser(userId, profile) =>
      s.(users := s.users + {userId}, usedIds := s.usedIds + {userId},
         profiles := if profile.Some? then s.profiles[profile.value := userId] else s.profiles)
    case Register(userId, hash, expiresAt) =>
      s.(users := s.users + {userId}, usedIds := s.usedIds + {userId},
         tokens := NewToken(s, s.nextId, userId, hash, expiresAt),
         parents := s.parents[s.nextId := None], roots := s.roots[s.nextId := s.nextId], nextId := s.nextId + 1,
         started := s.started + multiset{userId})
    case DeleteUser(userId) =>
      s.(users := s.users - {userId}, tokens := Cascaded(s.tokens, userId),
         profiles := map p | p in s.profiles && s.profiles[p] != userId :: s.profiles[p])
    case Login(userId, hash, expiresAt) =>
      s.(tokens := NewToken(s, s.nextId, userId, hash, expiresAt),
         parents := s.parents[s.nextId := None], roots := s.roots[s.nextId := s.nextId], nextId := s.nextId + 1,
         started := s.started + multiset{userId})
    case RefreshRead(x, id) =>
      s.(refreshes := s.refreshes[x := OpenRefresh(id, s.tokens[id].userId, s.nextId)], nextId := s.nextId + 1)
    case RefreshFinish(x, hash, expiresAt, fails) =>
      var r := s.refreshes[x];
      if Commits(s, x, hash, fails)
      then s.(tokens := Revoked(NewToken(s, r.newId, r.userId, hash, expiresAt), r.spent, s.clock),
              parents := s.parents[r.newId := Some(r.spent)],
              roots := s.roots[r.newId := if r.spent in s.roots then s.roots[r.spent] else r.newId],
              refreshes := s.refreshes - {x})
      else s.(refreshes := s.refreshes - {x})
    case LogoutRead(y, id) => s.(logouts := s.logouts[y := id])
    case LogoutRevoke(y, fails) =>
      var id := s.logouts[y];
      if !fails && Revocable(s.tokens, id)
      then s.(tokens := Revoked(s.tokens, id, s.clock), logouts := s.logouts - {y},
              ended := s.ended + multiset{s.tokens[id].userId})
      else s.(logouts := s.logouts - {y})
  }

  ghost function Exec(s: State, steps: seq<Action>): Option<State>
    decreases |steps|
  {
    if steps == [] then Some(s)
    else if Enabled(s, steps[0]) then Exec(Apply(s, steps[0]), steps[1..])
    else None
  }

  ghost predicate Reachable(s: State) {
    exists steps :: Exec(INITIAL, steps) == Some(s)
  }

  // ----- live users -----

  ghost predicate ProfilesLive(s: State) {
    s.users <= s.usedIds && forall p | p in s.profiles :: s.profiles[p] in s.users
  }

  ghost predicate TokensLive(s: State) {
    forall id | id in s.tokens :: s.tokens[id].userId in s.users
  }

  /** Every token and every profile names a live user. */
  ghost predicate OwnersLive(s: State) {
    ProfilesLive(s) && TokensLive(s)
  }

  // ----- chains -----

  /** A token is issued for an older one, if for any. */
  ghost predicate Ordered(parents: map<int, Option<int>>) {
    forall id {:trigger parents[id]} | id in parents ::
      id >= 1 && (parents[id].Some? ==> parents[id].value in parents && parents[id].value < id)
  }

  /** The Login or Register a token goes back to. */
  ghost function RootOf(parents: map<int, Option<int>>, id: int): int
    requires Ordered(parents) && id in parents
    decreases id
  {
    match parents[id]
    case None => id
    case Some(p) => RootOf(parents, p)
  }

  ghost predicate RefreshOk(s: State, x: int)
    requires x in s.refreshes
  {
    var r := s.refreshes[x];
    && r.spent in s.parents && r.spent < r.newId < s.nextId && r.newId !in s.parents
    && (r.spent in s.tokens ==> s.tokens[r.spent].userId == r.userId)
    && (forall other | other in s.refreshes && s.refreshes[other].newId == r.newId :: other == x)
  }

  ghost predicate TreeInv(s: State) {
    && s.nextId >= 1
    && Ordered(s.parents)
    && (forall id | id in s.parents :: id < s.nextId)
    && (forall id | id in s.tokens :: id in s.parents)
    && (forall x | x in s.refreshes :: RefreshOk(s, x))
  }

  /** A token with a child is revoked or gone, so it never gets a second one. */
  ghost predicate ChildInv(s: State) {
    && (forall c {:trigger s.parents[c]} | c in s.parents && s.parents[c].Some? :: !Revocable(s.tokens, s.parents[c].value))
    && (forall c, d {:trigger s.parents[c], s.parents[d]} |
          c in s.parents && d in s.parents && s.parents[c].Some? && s.parents[c] == s.parents[d] :: c == d)
  }

  ghost predicate RootInv(s: State) {
    && s.roots.Keys == s.parents.Keys
    && (forall id {:trigger s.parents[id]} | id in s.parents ::
          && s.roots[id] < s.nextId
          && (s.parents[id].None? ==> s.roots[id] == id)
          && (s.parents[id].Some? ==> s.parents[id].value in s.roots && s.roots[id] == s.roots[s.parents[id].value]))
    && (forall a, b | Revocable(s.tokens, a) && Revocable(s.tokens, b) && a in s.roots && b in s.roots &&
                      s.roots[a] == s.roots[b] :: a == b)
  }

  predicate Issues(a: Action) {
    a.Register? || a.Login?
  }

  ghost predicate Rotates(s: State, a: Action) {
    a.RefreshFinish? && a.x in s.refreshes && Commits(s, a.x, a.hash, a.fails)
  }

  /** A step that issues no token leaves the history alone and brings no token back to life. */
  lemma QuietStep(s: State, a: Action)
    requires Enabled(s, a) && !Issues(a) && !Rotates(s, a)
    ensures var t := Apply(s, a);
      && t.parents == s.parents && t.roots == s.roots && t.nextId >= s.nextId
      && t.tokens.Keys <= s.tokens.Keys
      && (forall id | id in t.tokens :: t.tokens[id].userId == s.tokens[id].userId)
      && (forall id | Revocable(t.tokens, id) :: Revocable(s.tokens, id))
      && (!a.RefreshRead? ==> forall x | x in t.refreshes :: x in s.refreshes && t.refreshes[x] == s.refreshes[x])
  {
    match a
    case Tick(_) =>
    case Burn(_) =>
    case CreateUser(_, _) =>
    case Register(_, _, _) =>
    case DeleteUser(_) =>
    case Login(_, _, _) =>
    case RefreshRead(_, _) =>
    case RefreshFinish(_, _, _, _) =>
    case LogoutRead(_, _) =>
    case LogoutRevoke(_, _) =>
  }

  lemma ReadKeepsTree(s: State, a: Action)
    requires TreeInv(s) && a.RefreshRead? && Enabled(s, a)
    ensures TreeInv(Apply(s, a))
  {
    var t := Apply(s, a);
    forall x | x in t.refreshes
      ensures RefreshOk(t, x)
    {
      assert x != a.x ==> RefreshOk(s, x);
    }
  }

  lemma TreeFrame(s: State, t: State)
    requires TreeInv(s) && t.parents == s.parents && t.nextId >= s.nextId
    requires t.tokens.Keys <= s.tokens.Keys
    requires forall id | id in t.tokens :: t.tokens[id].userId == s.tokens[id].userId
    requires forall x | x in t.refreshes :: x in s.refreshes && t.refreshes[x] == s.refreshes[x]
    ensures TreeInv(t)
  {
    forall x | x in t.refreshes
      ensures RefreshOk(t, x)
    {
      assert RefreshOk(s, x);
    }
  }

  lemma IssueKeepsTree(s: State, a: Action)
    requires TreeInv(s) && (Issues(a) || Rotates(s, a)) && Enabled(s, a)
    ensures TreeInv(Apply(s, a))
  {
    var t := Apply(s, a);
    if a.RefreshFinish? {
      assert RefreshOk(s, a.x);
    }
    forall x | x in t.refreshes
      ensures RefreshOk(t, x)
    {
      assert RefreshOk(s, x);
    }
  }

  lemma StepKeepsTree(s: State, a: Action)
    requires TreeInv(s) && Enabled(s, a)
    ensures TreeInv(Apply(s, a))
  {
    if a.RefreshRead? {
      ReadKeepsTree(s, a);
    } else if Issues(a) || Rotates(s, a) {
      IssueKeepsTree(s, a);
    } else {
      QuietStep(s, a);
      TreeFrame(s, Apply(s, a));
    }
  }

  /** A new root joins no chain. */
  lemma RootJoins(s: State, t: State, n: int)
    requires RootInv(s) && n !in s.parents && (forall id | id in s.parents :: s.roots[id] < n)
    requires t.parents == s.parents[n := None] && t.roots == s.roots[n := n]
    requires t.nextId > n >= s.nextId
    requires forall id | Revocable(t.tokens, id) :: id == n || Revocable(s.tokens, id)
    ensures RootInv(t)
  {
  }

  lemma RootHasNoChild(s: State, t: State, n: int)
    requires ChildInv(s) && Ordered(s.parents) && n !in s.parents
    requires t.parents == s.parents[n := None]
    requires forall id | Revocable(t.tokens, id) :: id == n || Revocable(s.tokens, id)
    ensures ChildInv(t)
  {
  }

  /** A child takes its parent's place at the end of the chain. */
  lemma ChildJoins(s: State, t: State, r: OpenRefresh)
    requires RootInv(s) && Revocable(s.tokens, r.spent) && r.spent in s.parents && r.newId !in s.parents
    requires t.parents == s.parents[r.newId := Some(r.spent)] && t.roots == s.roots[r.newId := s.roots[r.spent]]
    requires t.nextId >= s.nextId
    requires forall id | Revocable(t.tokens, id) :: id != r.spent && (id == r.newId || Revocable(s.tokens, id))
    ensures RootInv(t)
  {
  }

  lemma ChildIsOnly(s: State, t: State, r: OpenRefresh)
    requires ChildInv(s) && Ordered(s.parents)
    requires Revocable(s.tokens, r.spent) && r.spent in s.parents && r.newId !in s.parents
    requires t.parents == s.parents[r.newId := Some(r.spent)]
    requires forall id | Revocable(t.tokens, id) :: id != r.spent && (id == r.newId || Revocable(s.tokens, id))
    ensures ChildInv(t)
  {
  }

  lemma IssueKeepsChain(s: State, a: Action)
    requires TreeInv(s) && ChildInv(s) && RootInv(s) && Issues(a) && Enabled(s, a)
    ensures ChildInv(Apply(s, a)) && RootInv(Apply(s, a))
  {
    RootJoins(s, Apply(s, a), s.nextId);
    RootHasNoChild(s, Apply(s, a), s.nextId);
  }

  lemma RotateKeepsChain(s: State, a: Action)
    requires TreeInv(s) && ChildInv(s) && RootInv(s) && Rotates(s, a) && Enabled(s, a)
    ensures ChildInv(Apply(s, a)) && RootInv(Apply(s, a))
  {
    assert RefreshOk(s, a.x);
    ChildJoins(s, Apply(s, a), s.refreshes[a.x]);
    ChildIsOnly(s, Apply(s, a), s.refreshes[a.x]);
  }

  lemma StepKeepsChain(s: State, a: Action)
    requires TreeInv(s) && ChildInv(s) && RootInv(s) && Enabled(s, a)
    ensures ChildInv(Apply(s, a)) && RootInv(Apply(s, a))
  {
    if Issues(a) {
      IssueKeepsChain(s, a);
    } else if Rotates(s, a) {
      RotateKeepsChain(s, a);
    } else {
      QuietStep(s, a);
      QuietFrame(s, Apply(s, a));
    }
  }

  lemma QuietFrame(s: State, t: State)
    requires ChildInv(s) && RootInv(s)
    requires t.parents == s.parents && t.roots == s.roots && t.nextId >= s.nextId
    requires forall id | Revocable(t.tokens, id) :: Revocable(s.tokens, id)
    ensures ChildInv(t) && RootInv(t)
  {
  }

  /** The root kept with a token is the end of its chain of parents. */
  lemma {:induction false} RootIsChainEnd(s: State, id: int)
    requires TreeInv(s) && RootInv(s) && id in s.parents
    ensures RootOf(s.parents, id) == s.roots[id]
    decreases id
  {
    if s.parents[id].Some? {
      RootIsChainEnd(s, s.parents[id].value);
    }
  }

  lemma StepKeepsProfiles(s: State, a: Action)
    requires ProfilesLive(s) && Enabled(s, a)
    ensures ProfilesLive(Apply(s, a))
  {
    match a
    case Tick(_) =>
    case Burn(_) =>
    case CreateUser(_, _) =>
    case Register(_, _, _) =>
    case DeleteUser(_) =>
    case Login(_, _, _) =>
    case RefreshRead(_, _) =>
    case RefreshFinish(_, _, _, _) =>
    case LogoutRead(_, _) =>
    case LogoutRevoke(_, _) =>
  }

  lemma StepKeepsTokens(s: State, a: Action)
    requires TokensLive(s) && Enabled(s, a)
    ensures TokensLive(Apply(s, a))
  {
    match a
    case Tick(_) =>
    case Burn(_) =>
    case CreateUser(_, _) =>
    case Register(_, _, _) =>
    case DeleteUser(_) =>
    case Login(_, _, _) =>
    case RefreshRead(_, _) =>
    case RefreshFinish(_, _, _, _) =>
    case LogoutRead(_, _) =>
    case LogoutRevoke(_, _) =>
  }

  lemma StepKeepsHashes(s: State, a: Action)
    requires HashesUnique(s.tokens) && Enabled(s, a)
    ensures HashesUnique(Apply(s, a).tokens)
  {
    match a
    case Tick(_) =>
    case Burn(_) =>
    case CreateUser(_, _) =>
    case Register(_, _, _) =>
    case DeleteUser(_) =>
    case Login(_, _, _) =>
    case RefreshRead(_, _) =>
    case RefreshFinish(_, _, _, _) =>
    case LogoutRead(_, _) =>
    case LogoutRevoke(_, _) =>
  }

  // ----- conservation -----

  /** A user's open sessions are those started and not ended, as long as the user lives. */
  ghost predicate Balanced(s: State) {
    && (forall u | u !in s.usedIds :: s.started[u] == 0 && s.ended[u] == 0)
    && (forall u | u in s.users :: |Unrevoked(s.tokens, u)| + s.ended[u] == s.started[u])
  }

  lemma NewUserHasNone(s: State, u: int)
    requires OwnersLive(s) && u !in s.users
    ensures Unrevoked(s.tokens, u) == {}
  {
    forall id | id in s.tokens
      ensures s.tokens[id].userId != u
    {
    }
  }

  lemma IssueKeepsBalance(s: State, a: Action, u: int)
    requires OwnersLive(s) && TreeInv(s) && Balanced(s) && Issues(a) && Enabled(s, a) && u in Apply(s, a).users
    ensures var t := Apply(s, a); |Unrevoked(t.tokens, u)| + t.ended[u] == t.started[u]
  {
    var t := Apply(s, a);
    if u !in s.users {
      NewUserHasNone(s, u);
    }
    assert s.nextId !in s.tokens;
    UnrevokedInserted(s.tokens, s.nextId, a.userId, a.hash, a.expiresAt, u);
  }

  lemma RotateKeepsBalance(s: State, a: Action, u: int)
    requires TreeInv(s) && Balanced(s) && Rotates(s, a) && Enabled(s, a) && u in s.users
    ensures var t := Apply(s, a); |Unrevoked(t.tokens, u)| + t.ended[u] == t.started[u]
  {
    var t := Apply(s, a);
    var r := s.refreshes[a.x];
    assert RefreshOk(s, a.x);
    UnrevokedInserted(s.tokens, r.newId, r.userId, a.hash, a.expiresAt, u);
    UnrevokedRevoked(NewToken(s, r.newId, r.userId, a.hash, a.expiresAt), r.spent, s.clock, u);
  }

  lemma LogoutKeepsBalance(s: State, a: Action, u: int)
    requires Balanced(s) && a.LogoutRevoke? && Enabled(s, a) && u in s.users
    ensures var t := Apply(s, a); |Unrevoked(t.tokens, u)| + t.ended[u] == t.started[u]
  {
    var t := Apply(s, a);
    var id := s.logouts[a.y];
    UnrevokedRevoked(s.tokens, id, s.clock, u);
  }

  lemma OtherKeepsBalance(s: State, a: Action, u: int)
    requires OwnersLive(s) && Balanced(s) && !Issues(a) && !Rotates(s, a) && !a.LogoutRevoke?
    requires Enabled(s, a) && u in Apply(s, a).users
    ensures var t := Apply(s, a); |Unrevoked(t.tokens, u)| + t.ended[u] == t.started[u]
  {
    var t := Apply(s, a);
    if u !in s.users {
      NewUserHasNone(s, u);
    }
    assert Unrevoked(t.tokens, u) == Unrevoked(s.tokens, u);
  }

  lemma StepKeepsBalance(s: State, a: Action)
    requires OwnersLive(s) && TreeInv(s) && Balanced(s) && Enabled(s, a)
    ensures Balanced(Apply(s, a))
  {
    var t := Apply(s, a);
    forall u | u in t.users
      ensures |Unrevoked(t.tokens, u)| + t.ended[u] == t.started[u]
    {
      if Issues(a) {
        IssueKeepsBalance(s, a, u);
      } else if Rotates(s, a) {
        RotateKeepsBalance(s, a, u);
      } else if a.LogoutRevoke? {
        LogoutKeepsBalance(s, a, u);
      } else {
        OtherKeepsBalance(s, a, u);
      }
    }
    forall u | u !in t.usedIds
      ensures t.started[u] == 0 && t.ended[u] == 0
    {
      assert u !in s.usedIds;
      HistoryOfUsed(s, a, u);
    }
  }

  lemma HistoryOfUsed(s: State, a: Action, u: int)
    requires OwnersLive(s) && Enabled(s, a) && u !in Apply(s, a).usedIds
    requires s.started[u] == 0 && s.ended[u] == 0 && u !in s.users
    ensures Apply(s, a).started[u] == 0 && Apply(s, a).ended[u] == 0
  {
    if a.LogoutRevoke? {
      assert Revocable(s.tokens, s.logouts[a.y]) ==> s.tokens[s.logouts[a.y]].userId != u;
    }
  }

  // ----- every interleaving -----

  ghost predicate Inv(s: State) {
    OwnersLive(s) && HashesUnique(s.tokens) && TreeInv(s) && ChildInv(s) && RootInv(s) && Balanced(s)
  }

  lemma {:induction false} RunKeepsInv(s: State, steps: seq<Action>)
    requires Inv(s)
    ensures Exec(s, steps).Some? ==> Inv(Exec(s, steps).value)
    decreases |steps|
  {
    if steps != [] && Enabled(s, steps[0]) {
      StepKeepsProfiles(s, steps[0]);
      StepKeepsTokens(s, steps[0]);
      StepKeepsHashes(s, steps[0]);
      StepKeepsTree(s, steps[0]);
      StepKeepsChain(s, steps[0]);
      StepKeepsBalance(s, steps[0]);
      RunKeepsInv(Apply(s, steps[0]), steps[1..]);
    }
  }

  lemma ReachableInv(s: State)
    requires Reachable(s)
    ensures Inv(s)
  {
    var steps :| Exec(INITIAL, steps) == Some(s);
    RunKeepsInv(INITIAL, steps);
  }

  /** A refresh token is the parent of at most one committed token, however refreshes of it overlap. */
  lemma OneChild(s: State, c: int, d: int)
    requires Reachable(s)
    requires c in s.parents && d in s.parents && s.parents[c].Some? && s.parents[c] == s.parents[d]
    ensures c == d
  {
    ReachableInv(s);
  }

  /** The tokens that go back to one Login or Register have at most one unrevoked among them. */
  lemma OneLiveTokenPerSession(s: State, a: int, b: int)
    requires Reachable(s) && Revocable(s.tokens, a) && Revocable(s.tokens, b)
    ensures Ordered(s.parents) && a in s.parents && b in s.parents
    ensures RootOf(s.parents, a) == RootOf(s.parents, b) ==> a == b
  {
    ReachableInv(s);
    RootIsChainEnd(s, a);
    RootIsChainEnd(s, b);
  }

  /** Refreshes neither add nor lose sessions: a live user's unrevoked tokens are its Logins and
      Registers less the Logouts that revoked a row. */
  lemma SessionsConserved(s: State, userId: int)
    requires Reachable(s) && userId in s.users
    ensures |Unrevoked(s.tokens, userId)| + s.ended[userId] == s.started[userId]
  {
    ReachableInv(s);
  }

  /** No profile and no refresh token outlives its user. */
  lemma NoOrphans(s: State)
    requires Reachable(s)
    ensures forall id | id in s.tokens :: s.tokens[id].userId in s.users
    ensures forall p | p in s.profiles :: s.profiles[p] in s.users
  {
    ReachableInv(s);
  }

  /** Of two refreshes of one token that have both passed the check, the one that finishes second rolls
      back, whatever else it does: the row count of the conditional revoke decides. */
  lemma SecondRefreshRollsBack(s: State, a: Action, y: int, hash: string, fails: bool)
    requires a.RefreshFinish? && Enabled(s, a) && Commits(s, a.x, a.hash, a.fails)
    requires TreeInv(s) && y in s.refreshes && y != a.x && s.refreshes[y].spent == s.refreshes[a.x].spent
    ensures y in Apply(s, a).refreshes && !Commits(Apply(s, a), y, hash, fails)
  {
    assert RefreshOk(s, a.x);
  }

  // ----- expiry -----

  /** A run cut off after its first n steps is a run, and its next step is enabled there. */
  lemma {:induction false} CutRun(s: State, steps: seq<Action>, n: nat)
    requires Exec(s, steps).Some? && n <= |steps|
    ensures Exec(s, steps[..n]).Some?
    ensures n < |steps| ==>
              var m := Exec(s, steps[..n]).value;
              Enabled(m, steps[n]) && Exec(s, steps[..n + 1]) == Some(Apply(m, steps[n]))
    decreases |steps|
  {
    if n > 0 {
      var next := Apply(s, steps[0]);
      CutRun(next, steps[1..], n - 1);
      assert steps[..n][1..] == steps[1..][..n - 1];
      if n < |steps| {
        assert steps[..n + 1][1..] == steps[1..][..n];
      }
    } else if n < |steps| {
      assert steps[..1][1..] == [] && steps[..0] == [];
    }
  }

  /** Step j of the run reads the token to refresh it, and finds it neither revoked nor expired. */
  ghost predicate ReadsInTime(steps: seq<Action>, j: nat, x: int, id: int)
    requires j < |steps|
  {
    && steps[j] == RefreshRead(x, id)
    && Exec(INITIAL, steps[..j]).Some?
    && var s := Exec(INITIAL, steps[..j]).value;
       id in s.tokens && s.tokens[id].revokedAt.None? && s.clock < s.tokens[id].expiresAt
  }

  lemma {:induction false} OpenedInTime(steps: seq<Action>, n: nat, x: int) returns (j: nat)
    requires Exec(INITIAL, steps).Some? && n <= |steps|
    requires Exec(INITIAL, steps[..n]).Some? && x in Exec(INITIAL, steps[..n]).value.refreshes
    ensures j < n && ReadsInTime(steps, j, x, Exec(INITIAL, steps[..n]).value.refreshes[x].spent)
    decreases n
  {
    assert n > 0 by { assert steps[..0] == []; }
    CutRun(INITIAL, steps, n - 1);
    if steps[n - 1].RefreshRead? && steps[n - 1].x == x {
      j := n - 1;
    } else {
      j := OpenedInTime(steps, n - 1, x);
    }
  }

  /** No token is exchanged after its time: in every run, the refresh that issued a committed token read its parent
      while that was neither revoked nor expired, however long it then took to commit. */
  lemma {:induction false} RefreshedInTime(steps: seq<Action>, n: nat, c: int) returns (j: nat, x: int)
    requires Exec(INITIAL, steps).Some? && n <= |steps| && Exec(INITIAL, steps[..n]).Some?
    requires c in Exec(INITIAL, steps[..n]).value.parents && Exec(INITIAL, steps[..n]).value.parents[c].Some?
    ensures j < n && ReadsInTime(steps, j, x, Exec(INITIAL, steps[..n]).value.parents[c].value)
    decreases n
  {
    assert n > 0 by { assert steps[..0] == []; }
    CutRun(INITIAL, steps, n - 1);
    var before, a := Exec(INITIAL, steps[..n - 1]).value, steps[n - 1];
    if Rotates(before, a) && before.refreshes[a.x].newId == c {
      x := a.x;
      j := OpenedInTime(steps, n - 1, x);
    } else {
      j, x := RefreshedInTime(steps, n - 1, c);
    }
  }

  lemma ReachableStep(s: State, a: Action)
    requires Reachable(s) && Enabled(s, a)
    ensures Reachable(Apply(s, a))
  {
    var steps :| Exec(INITIAL, steps) == Some(s);
    ExecAppend(INITIAL, steps, [a]);
    assert Exec(s, [a]) == Some(Apply(s, a));
  }

  lemma {:induction false} ExecAppend(s: State, first: seq<Action>, second: seq<Action>)
    requires Exec(s, first).Some?
    ensures Exec(s, first + second) == Exec(Exec(s, first).value, second)
    decreases |first|
  {
    if first == [] {
      assert first + second == second;
    } else {
      assert (first + second)[1..] == first[1..] + second;
      ExecAppend(Apply(s, first[0]), first[1..], second);
    }
  }

  /** The check alone does not separate them: two refreshes of one token can both be about to commit. */
  lemma BothPassTheCheck() returns (s: State)
    ensures Reachable(s) && s.refreshes.Keys == {1, 2} && s.refreshes[1].spent == s.refreshes[2].spent
    ensures Commits(s, 1, "second", false) && Commits(s, 2, "third", false)
  {
    assert Exec(INITIAL, []) == Some(INITIAL);
    var a := Register(7, "first", 100);
    s := Apply(INITIAL, a);
    ReachableStep(INITIAL, a);
    var b := RefreshRead(1, 1);
    var s1 := Apply(s, b);
    ReachableStep(s, b);
    var c := RefreshRead(2, 1);
    s := Apply(s1, c);
    ReachableStep(s1, c);
    assert "first"[0] != "second"[0] && "first"[0] != "third"[0];
  }
}
