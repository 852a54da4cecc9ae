/**
  The services that write users, profiles, tokens and outbox rows, over one database. A transaction
  works on a snapshot of the tables, which its commit puts in place; sequences are taken from outside
  the transaction and never roll back.
 */
module Identity {
  import opened Wrappers
  import opened EventFormat
  import opened OutboxTable
  import opened TokenTable
  import opened Users
  import opened Pipeline
  import opened PipelineInvariants

  datatype Profile = Profile(userId: int, bio: string)

  datatype Tables = Tables(users: map<int, User>, profiles: map<int, Profile>, tokens: Tokens, outbox: Rows)

  /** The call that fails during an operation, if one does. */
  datatype Fault =
    | NoFault | HashFails | BeginFails | ReadFails | UserInsertFails | ProfileInsertFails | SignFails
    | TokenInsertFails | RevokeFails | MarshalFails | EventInsertFails | CommitFails | CommitAnswerLost

  /** The fault leaves an insert or a commit to take effect. */
  predicate Lands(fault: Fault) {
    fault == NoFault || fault == CommitAnswerLost
  }

  ghost predicate TablesOk(t: Tables) {
    && (forall id | id in t.users :: t.users[id].id == id)
    && (forall i, j | i in t.users && j in t.users && t.users[i].email == t.users[j].email :: i == j)
    && (forall p | p in t.profiles :: t.profiles[p].userId in t.users)
    && (forall id | id in t.tokens :: t.tokens[id].userId in t.users)
    && HashesUnique(t.tokens)
  }

  /** A new user and its registration event. */
  function WithUser(t: Tables, user: User, eventId: int, now: int): Tables {
    t.(users := t.users[user.id := user],
       outbox := t.outbox[eventId := NewRow(eventId, UserRegisteredBody(user.id, user.email, user.role), now)])
  }

  function WithToken(t: Tables, id: int, userId: int, hash: string, expiresAt: int): Tables {
    t.(tokens := t.tokens[id := Token(userId, hash, expiresAt, None)])
  }

  function WithProfile(t: Tables, id: int, userId: int, bio: string): Tables {
    t.(profiles := t.profiles[id := Profile(userId, bio)])
  }

  /** What a registration commits: the user, its event and its first token. */
  function Registered(t: Tables, next: Sequences, user: User, hash: string, expiresAt: int, now: int): Tables {
    WithToken(WithUser(t, user, next.event, now), next.token, user.id, hash, expiresAt)
  }

  /** What the other create paths commit: the user, its event, and a profile if there is a bio. */
  function Created(t: Tables, next: Sequences, user: User, bio: Option<string>, now: int): Tables {
    match bio
    case None => WithUser(t, user, next.event, now)
    case Some(b) => WithProfile(WithUser(t, user, next.event, now), next.profile, user.id, b)
  }

  predicate HashTaken(tokens: Tokens, hash: string) {
    exists id | id in tokens :: tokens[id].hash == hash
  }

  /** Deleting a user takes its profile and its tokens along, and leaves the outbox alone. */
  function WithoutUser(t: Tables, id: int): Tables {
    Tables(t.users - {id}, map p | p in t.profiles && t.profiles[p].userId != id :: t.profiles[p],
           Cascaded(t.tokens, id), t.outbox)
  }

  /** What the database keeps between operations: every user ever committed has exactly one registration
      event, telling of it as created, and every event belongs to such a user; profiles and tokens name
      live users; emails and hashes are unique; the sequences are ahead of every id in use. */
  ghost predicate DbOk(t: Tables, born: map<int, Registration>, eventOf: map<int, int>, next: Sequences) {
    && TablesOk(t)
    && Linked(born, eventOf, t.outbox)
    && t.users.Keys <= born.Keys
    && Unused(t, born, next)
  }

  /** The next values of the sequences name nothing yet. */
  ghost predicate Unused(t: Tables, born: map<int, Registration>, next: Sequences) {
    && (forall u | u in born :: u < next.user)
    && (forall p | p in t.profiles :: p < next.profile)
    && (forall id | id in t.tokens :: id < next.token)
    && (forall id | id in t.outbox :: id < next.event)
  }

  datatype Sequences = Sequences(user: int, profile: int, token: int, event: int)

  function Bumped(n: Sequences): Sequences {
    Sequences(n.user + 1, n.profile + 1, n.token + 1, n.event + 1)
  }

  /** The database between two operations. */
  datatype Moment = Moment(tables: Tables, next: Sequences)

  /** The next user and its event are new, and nothing else happens to users or events. */
  ghost predicate Creation(m: Moment, n: Moment) {
    var u, id := m.next.user, m.next.event;
    && n.next.user > u && n.next.event > id
    && n.tables.users.Keys == m.tables.users.Keys + {u}
    && id in n.tables.outbox
    && n.tables.outbox == m.tables.outbox[id :=
         NewRow(id, UserRegisteredBody(u, n.tables.users[u].email, n.tables.users[u].role), n.tables.outbox[id].createdAt)]
  }

  /** What one operation does to users and events: it creates the next one of each, or adds none. */
  ghost predicate Follows(m: Moment, n: Moment) {
    || Creation(m, n)
    || (n.tables.outbox == m.tables.outbox && n.tables.users.Keys <= m.tables.users.Keys &&
        n.next.user >= m.next.user && n.next.event >= m.next.event)
  }

  lemma EmailAdded(t: Tables, user: User, eventId: int, now: int)
    requires TablesOk(t) && user.id !in t.users && !EmailTaken(t.users, user.email)
    ensures TablesOk(WithUser(t, user, eventId, now))
  {
  }

  lemma UserAdded(t: Tables, born: map<int, Registration>, eventOf: map<int, int>, next: Sequences, user: User, now: int)
    requires DbOk(t, born, eventOf, next) && user.id == next.user && !EmailTaken(t.users, user.email)
    ensures DbOk(WithUser(t, user, next.event, now), born[user.id := Registration(user.email, user.role)],
                 eventOf[user.id := next.event], next.(user := next.user + 1, event := next.event + 1))
  {
    EmailAdded(t, user, next.event, now);
    LinkedCreate(born, eventOf, t.outbox, user.id, Registration(user.email, user.role), next.event, now);
  }

  lemma HashAdded(tokens: Tokens, id: int, token: Token)
    requires HashesUnique(tokens) && id !in tokens && !HashTaken(tokens, token.hash)
    ensures HashesUnique(tokens[id := token])
  {
  }

  lemma TokenAdded(t: Tables, born: map<int, Registration>, eventOf: map<int, int>, next: Sequences,
                   userId: int, hash: string, expiresAt: int)
    requires DbOk(t, born, eventOf, next) && userId in t.users && !HashTaken(t.tokens, hash)
    ensures DbOk(WithToken(t, next.token, userId, hash, expiresAt), born, eventOf, next.(token := next.token + 1))
  {
    HashAdded(t.tokens, next.token, Token(userId, hash, expiresAt, None));
  }

  lemma ProfileAdded(t: Tables, born: map<int, Registration>, eventOf: map<int, int>, next: Sequences,
                     userId: int, bio: string)
    requires DbOk(t, born, eventOf, next) && userId in t.users
    ensures DbOk(WithProfile(t, next.profile, userId, bio), born, eventOf, next.(profile := next.profile + 1))
  {
  }

  lemma SequencesBurned(t: Tables, born: map<int, Registration>, eventOf: map<int, int>, low: Sequences, high: Sequences)
    requires DbOk(t, born, eventOf, low)
    requires low.user <= high.user && low.profile <= high.profile && low.token <= high.token && low.event <= high.event
    ensures DbOk(t, born, eventOf, high)
  {
  }

  lemma RegistrationKept(t: Tables, born: map<int, Registration>, eventOf: map<int, int>, next: Sequences,
                         user: User, hash: string, expiresAt: int, now: int)
    requires DbOk(t, born, eventOf, next) && user.id == next.user
    requires !EmailTaken(t.users, user.email) && !HashTaken(t.tokens, hash)
    ensures var after := Registered(t, next, user, hash, expiresAt, now);
      && DbOk(after, born[user.id := Registration(user.email, user.role)], eventOf[user.id := next.event], Bumped(next))
      && Creation(Moment(t, next), Moment(after, Bumped(next)))
  {
    var more, of := born[user.id := Registration(user.email, user.role)], eventOf[user.id := next.event];
    var used := next.(user := next.user + 1, event := next.event + 1);
    var added := WithUser(t, user, next.event, now);
    UserAdded(t, born, eventOf, next, user, now);
    TokenAdded(added, more, of, used, user.id, hash, expiresAt);
    SequencesBurned(Registered(t, next, user, hash, expiresAt, now), more, of, used.(token := used.token + 1), Bumped(next));
  }

  lemma CreationKept(t: Tables, born: map<int, Registration>, eventOf: map<int, int>, next: Sequences,
                     user: User, bio: Option<string>, now: int)
    requires DbOk(t, born, eventOf, next) && user.id == next.user && !EmailTaken(t.users, user.email)
    ensures var after := Created(t, next, user, bio, now);
      && DbOk(after, born[user.id := Registration(user.email, user.role)], eventOf[user.id := next.event], Bumped(next))
      && Creation(Moment(t, next), Moment(after, Bumped(next)))
  {
    var more, of := born[user.id := Registration(user.email, user.role)], eventOf[user.id := next.event];
    var used := next.(user := next.user + 1, event := next.event + 1);
    var added := WithUser(t, user, next.event, now);
    UserAdded(t, born, eventOf, next, user, now);
    match bio
    case None => SequencesBurned(added, more, of, used, Bumped(next));
    case Some(b) =>
      ProfileAdded(added, more, of, used, user.id, b);
      SequencesBurned(Created(t, next, user, bio, now), more, of, used.(profile := used.profile + 1), Bumped(next));
  }

  lemma RotationKept(before: Tables, after: Tables, born: map<int, Registration>, eventOf: map<int, int>, next: Sequences,
                     id: int, hash: string, newHash: string, expiresAt: int, now: int)
    requires DbOk(before, born, eventOf, next)
    requires RefreshedAs(before, after, id, hash, next.token, newHash, expiresAt, now)
    ensures DbOk(after, born, eventOf, Bumped(next)) && Follows(Moment(before, next), Moment(after, Bumped(next)))
  {
    var used := next.(token := next.token + 1);
    var added := WithToken(before, next.token, before.tokens[id].userId, newHash, expiresAt);
    TokenAdded(before, born, eventOf, next, before.tokens[id].userId, newHash, expiresAt);
    TokenRevoked(added, born, eventOf, used, id, now);
    SequencesBurned(after, born, eventOf, used, Bumped(next));
  }

  // ----- the transaction bodies, each on its own snapshot -----

  /** The body of Register's transaction: the user, its first token, its event. */
  method RegisterTx(snapshot: Tables, next: Sequences, user: User, tokenHash: string, expiresAt: int, now: int, fault: Fault)
    returns (r: Result<Tables, Error>)
    requires user.id == next.user
    ensures r.Err? <==>
              || fault in {ReadFails, UserInsertFails, SignFails, TokenInsertFails, MarshalFails, EventInsertFails}
              || EmailTaken(snapshot.users, user.email) || HashTaken(snapshot.tokens, tokenHash)
    ensures r.Ok? ==> r.value == Registered(snapshot, next, user, tokenHash, expiresAt, now)
    ensures fault != ReadFails && EmailTaken(snapshot.users, user.email) ==> r == Err(EmailAlreadyExists)
  {
    if fault == ReadFails {
      return Err(StoreFailed);
    }
    var t := snapshot;
    if EmailTaken(t.users, user.email) {
      return Err(EmailAlreadyExists);
    }
    if fault == UserInsertFails {
      return Err(StoreFailed);
    }
    t := t.(users := t.users[user.id := user]);
    if fault == SignFails || fault == TokenInsertFails || HashTaken(t.tokens, tokenHash) {
      return Err(StoreFailed);
    }
    t := WithToken(t, next.token, user.id, tokenHash, expiresAt);
    if fault == MarshalFails || fault == EventInsertFails {
      return Err(StoreFailed);
    }
    var event := NewRow(next.event, UserRegisteredBody(user.id, user.email, user.role), now);
    t := t.(outbox := t.outbox[next.event := event]);
    r := Ok(t);
  }

  /** The body of CreateUser's transaction, and with a bio of CreateUserWithProfile's. */
  method CreateTx(snapshot: Tables, next: Sequences, user: User, bio: Option<string>, now: int, fault: Fault)
    returns (r: Result<Tables, Error>)
    requires user.id == next.user
    ensures r.Err? <==>
              || fault in {ReadFails, UserInsertFails, MarshalFails, EventInsertFails}
              || (bio.Some? && fault == ProfileInsertFails) || EmailTaken(snapshot.users, user.email)
    ensures r.Ok? ==> r.value == Created(snapshot, next, user, bio, now)
    ensures r.Err? ==> !r.error.InvalidInput?
    ensures fault != ReadFails && EmailTaken(snapshot.users, user.email) ==> r == Err(EmailAlreadyExists)
  {
    if fault == ReadFails {
      return Err(StoreFailed);
    }
    var t := snapshot;
    if EmailTaken(t.users, user.email) {
      return Err(EmailAlreadyExists);
    }
    if fault == UserInsertFails {
      return Err(StoreFailed);
    }
    t := t.(users := t.users[user.id := user]);
    if bio.Some? {
      if fault == ProfileInsertFails {
        return Err(StoreFailed);
      }
      t := WithProfile(t, next.profile, user.id, bio.value);
    }
    if fault == MarshalFails || fault == EventInsertFails {
      return Err(StoreFailed);
    }
    var event := NewRow(next.event, UserRegisteredBody(user.id, user.email, user.role), now);
    t := t.(outbox := t.outbox[next.event := event]);
    r := Ok(t);
  }

  lemma TokenRevoked(t: Tables, born: map<int, Registration>, eventOf: map<int, int>, next: Sequences, id: int, now: int)
    requires DbOk(t, born, eventOf, next)
    ensures DbOk(t.(tokens := Revoked(t.tokens, id, now)), born, eventOf, next)
  {
  }

  lemma UserChanged(t: Tables, born: map<int, Registration>, eventOf: map<int, int>, next: Sequences,
                    id: int, name: string, email: string, age: int, now: int)
    requires DbOk(t, born, eventOf, next) && id in t.users
    requires forall other | other in t.users && other != id :: t.users[other].email != email
    ensures DbOk(t.(users := t.users[id := Changed(t.users[id], name, email, age, now)]), born, eventOf, next)
  {
  }

  /** The body of Refresh's transaction: find, check, insert, conditional revoke. It gives back the tables
      to commit, which are the snapshot when it fails. */
  method RefreshTx(snapshot: Tables, next: Sequences, hash: string, newHash: string, expiresAt: int, now: int, fault: Fault)
    returns (r: Result<User, Error>, t: Tables, ghost id: int)
    requires TablesOk(snapshot) && next.token !in snapshot.tokens
    ensures r.Err? ==> t == snapshot
    ensures r.Ok? ==> RefreshedAs(snapshot, t, id, hash, next.token, newHash, expiresAt, now)
    ensures r.Ok? ==> r.value == snapshot.users[snapshot.tokens[id].userId].(passwordHash := "")
    ensures
      if fault == ReadFails then r == Err(StoreFailed)
      else if !exists i :: i in snapshot.tokens && snapshot.tokens[i].hash == hash &&
                           snapshot.tokens[i].revokedAt.None? && now < snapshot.tokens[i].expiresAt
      then r == Err(Unauthorized)
      else if fault in {SignFails, TokenInsertFails, RevokeFails, CommitFails} || HashTaken(snapshot.tokens, newHash)
      then r == Err(StoreFailed)
      else r.Ok?
  {
    t, id := snapshot, 0;
    if fault == ReadFails {
      return Err(StoreFailed), t, id;
    }
    if found :| found in t.tokens && t.tokens[found].hash == hash {
      id := found;
      var stored := t.tokens[found];
      if !IsActive(stored, now) || stored.userId !in t.users {
        return Err(Unauthorized), t, id;
      }
      if fault == SignFails || fault == TokenInsertFails || HashTaken(t.tokens, newHash) {
        return Err(StoreFailed), t, id;
      }
      var work := WithToken(t, next.token, stored.userId, newHash, expiresAt);
      if fault == RevokeFails || fault == CommitFails || !Revocable(work.tokens, found) {
        return Err(StoreFailed), t, id;
      }
      work := work.(tokens := work.tokens[found := work.tokens[found].(revokedAt := Some(now))]);
      return Ok(Selected(t.users[stored.userId])), work, id;
    } else {
      return Err(Unauthorized), t, id;
    }
  }

  class Database {
    const lib: TextLib
    var tables: Tables
    var next: Sequences
    ghost var born: map<int, Registration>
    ghost var eventOf: map<int, int>

    ghost predicate Valid()
      reads this
    {
      DbOk(tables, born, eventOf, next)
    }

    constructor (lib: TextLib)
      ensures Valid() && tables == Tables(map[], map[], map[], map[]) && born == map[] && this.lib == lib
    {
      this.lib := lib;
      tables := Tables(map[], map[], map[], map[]);
      next := Sequences(1, 1, 1, 1);
      born, eventOf := map[], map[];
    }

    ghost function Now(): Moment
      reads this
    {
      Moment(tables, next)
    }

    function NewUser(name: string, email: string, age: int, passwordHash: string, now: int): User
      reads this`next
    {
      User(next.user, lib.trim(name), NormalEmail(lib, email), age, ROLE_USER, passwordHash, now, now)
    }

    /** A transaction takes values from the sequences, and they stay used even if it rolls back. */
    method UseSequences()
      requires Valid()
      modifies `next
      ensures Valid() && Unused(tables, born, old(next)) && next == Bumped(old(next))
    {
      SequencesBurned(tables, born, eventOf, next, Bumped(next));
      next := Bumped(next);
    }

    /** All that can fail in a registration, the commit included: the tables to put in place if nothing does. */
    method RegisterUpToCommit(user: User, tokenHash: string, expiresAt: int, now: int, fault: Fault)
      returns (r: Result<Tables, Error>)
      requires Valid() && user.id == next.user
      modifies `next
      ensures Valid() && (next == old(next) || next == Bumped(old(next)))
      ensures r.Err? <==>
                || fault in {HashFails, BeginFails, ReadFails, UserInsertFails, SignFails, TokenInsertFails, MarshalFails,
                             EventInsertFails, CommitFails}
                || EmailTaken(tables.users, user.email) || HashTaken(tables.tokens, tokenHash)
      ensures r.Ok? ==> r.value == Registered(tables, old(next), user, tokenHash, expiresAt, now) &&
                        next == Bumped(old(next)) && Unused(tables, born, old(next))
      ensures fault == NoFault && EmailTaken(tables.users, user.email) ==> r == Err(EmailAlreadyExists)
    {
      if fault == HashFails || fault == BeginFails {
        return Err(StoreFailed);
      }
      var ids := next;
      UseSequences();
      r := RegisterTx(tables, ids, user, tokenHash, expiresAt, now, fault);
      if r.Ok? && fault == CommitFails {
        r := Err(StoreFailed);
      }
    }

    method CreateUpToCommit(user: User, bio: Option<string>, now: int, fault: Fault) returns (r: Result<Tables, Error>)
      requires Valid() && user.id == next.user
      modifies `next
      ensures Valid() && (next == old(next) || next == Bumped(old(next)))
      ensures r.Err? <==>
                || fault in {HashFails, BeginFails, ReadFails, UserInsertFails, MarshalFails, EventInsertFails, CommitFails}
                || (bio.Some? && fault == ProfileInsertFails)
                || EmailTaken(tables.users, user.email)
      ensures r.Err? ==> !r.error.InvalidInput? && (fault == NoFault ==> r == Err(EmailAlreadyExists))
      ensures r.Ok? ==> r.value == Created(tables, old(next), user, bio, now) &&
                        next == Bumped(old(next)) && Unused(tables, born, old(next))
    {
      if fault == HashFails || fault == BeginFails {
        return Err(StoreFailed);
      }
      var ids := next;
      UseSequences();
      r := CreateTx(tables, ids, user, bio, now, fault);
      if r.Ok? && fault == CommitFails {
        r := Err(StoreFailed);
      }
    }

    /** Puts a registration in place, its sequence values being used up. */
    method CommitRegistration(committed: Tables, ghost ids: Sequences, user: User, ghost hash: string,
                              ghost expiresAt: int, ghost now: int)
      requires Valid() && Unused(tables, born, ids) && next == Bumped(ids) && user.id == ids.user
      requires !EmailTaken(tables.users, user.email) && !HashTaken(tables.tokens, hash)
      requires committed == Registered(tables, ids, user, hash, expiresAt, now)
      modifies `tables, `born, `eventOf
      ensures Valid() && Creation(Moment(old(tables), ids), Now()) && tables == committed
      ensures born == old(born)[user.id := Registration(user.email, user.role)]
    {
      RegistrationKept(tables, born, eventOf, ids, user, hash, expiresAt, now);
      tables := committed;
      born, eventOf := born[user.id := Registration(user.email, user.role)], eventOf[user.id := ids.event];
    }

    /** The same for a user created without a session. */
    method CommitCreation(committed: Tables, ghost ids: Sequences, user: User, ghost bio: Option<string>, ghost now: int)
      requires Valid() && Unused(tables, born, ids) && next == Bumped(ids) && user.id == ids.user
      requires !EmailTaken(tables.users, user.email) && committed == Created(tables, ids, user, bio, now)
      modifies `tables, `born, `eventOf
      ensures Valid() && Creation(Moment(old(tables), ids), Now()) && tables == committed
      ensures born == old(born)[user.id := Registration(user.email, user.role)]
    {
      CreationKept(tables, born, eventOf, ids, user, bio, now);
      tables := committed;
      born, eventOf := born[user.id := Registration(user.email, user.role)], eventOf[user.id := ids.event];
    }

    /** Registers a user and opens its first session: user, token and event commit together or not at all. */
    method Register(name: string, email: string, age: int, passwordHash: string,
                    tokenHash: string, expiresAt: int, now: int, fault: Fault)
      returns (r: Result<User, Error>)
      requires Valid()
      modifies this
      ensures Valid() && Follows(old(Now()), Now())
      ensures
        var e := lib.trim(lib.lower(email));
        var user := User(old(next.user), lib.trim(name), e, age, "USER", passwordHash, now, now);
        var event := Event(old(next.event), UserRegisteredBody(user.id, e, "USER"), New, 0, None, None, None, now);
        if || fault in {HashFails, BeginFails, ReadFails, UserInsertFails, SignFails, TokenInsertFails, MarshalFails,
                        EventInsertFails, CommitFails}
           || (exists id :: id in old(tables.users) && old(tables.users)[id].email == e)
           || (exists id :: id in old(tables.tokens) && old(tables.tokens)[id].hash == tokenHash)
        then tables == old(tables) && born == old(born) && r.Err?
        else && tables == Tables(old(tables.users)[user.id := user], old(tables.profiles),
                                 old(tables.tokens)[old(next.token) := Token(user.id, tokenHash, expiresAt, None)],
                                 old(tables.outbox)[event.id := event])
             && born == old(born)[user.id := Registration(e, "USER")]
             && r == (if fault == CommitAnswerLost then Err(StoreFailed) else Ok(user.(passwordHash := "")))
      ensures fault == NoFault && (exists id :: id in old(tables.users) &&
                                                 old(tables.users)[id].email == lib.trim(lib.lower(email))) ==>
                r == Err(EmailAlreadyExists)
    {
      var user := NewUser(name, email, age, passwordHash, now);
      var ids := next;
      var done := RegisterUpToCommit(user, tokenHash, expiresAt, now, fault);
      if done.Err? {
        return Err(done.error);
      }
      CommitRegistration(done.value, ids, user, tokenHash, expiresAt, now);
      r := if fault == CommitAnswerLost then Err(StoreFailed) else Ok(Selected(user));
    }

    /** Commits the user CreateTx made, with its profile if it has one. */
    method Create(user: User, bio: Option<string>, now: int, fault: Fault) returns (error: Option<Error>)
      requires Valid() && user.id == next.user
      modifies this
      ensures Valid() && Follows(old(Now()), Now())
      ensures
        var event := Event(old(next.event), UserRegisteredBody(user.id, user.email, user.role), New, 0, None, None, None, now);
        if || fault in {HashFails, BeginFails, ReadFails, UserInsertFails, MarshalFails, EventInsertFails, CommitFails}
           || (bio.Some? && fault == ProfileInsertFails)
           || (exists id :: id in old(tables.users) && old(tables.users)[id].email == user.email)
        then tables == old(tables) && born == old(born) && error.Some? && !error.value.InvalidInput?
             && (fault == NoFault ==> error == Some(EmailAlreadyExists))
        else && tables == Tables(old(tables.users)[user.id := user],
                                 if bio.None? then old(tables.profiles)
                                 else old(tables.profiles)[old(next.profile) := Profile(user.id, bio.value)],
                                 old(tables.tokens), old(tables.outbox)[event.id := event])
             && born == old(born)[user.id := Registration(user.email, user.role)]
             && error == (if fault == CommitAnswerLost then Some(StoreFailed) else None)
    {
      var ids := next;
      var done := CreateUpToCommit(user, bio, now, fault);
      if done.Err? {
        return Some(done.error);
      }
      CommitCreation(done.value, ids, user, bio, now);
      error := if fault == CommitAnswerLost then Some(StoreFailed) else None;
    }

    /** Creates a user without a session. */
    method CreateUser(name: string, email: string, age: int, passwordHash: string, now: int, fault: Fault)
      returns (r: Result<User, Error>)
      requires Valid()
      modifies this
      ensures Valid() && Follows(old(Now()), Now())
      ensures
        var user := User(old(next.user), lib.trim(name), lib.trim(lib.lower(email)), age, "USER", passwordHash, now, now);
        var event := Event(old(next.event), UserRegisteredBody(user.id, user.email, "USER"), New, 0, None, None, None, now);
        var badName := lib.trim(user.name) == "" || |user.name| < 2 || |user.name| > 100;
        var badEmail := lib.trim(user.email) == "" || |user.email| > 255 || !lib.isAddress(user.email);
        var badAge := age < 0 || age > 150;
        if badName || badEmail || badAge
        then && tables == old(tables) && born == old(born) && r.Err? && r.error.InvalidInput?
             && ("name" in r.error.fields <==> badName) && ("email" in r.error.fields <==> badEmail)
             && ("age" in r.error.fields <==> badAge) && r.error.fields <= {"name", "email", "age"}
        else if || fault in {HashFails, BeginFails, ReadFails, UserInsertFails, MarshalFails,
                             EventInsertFails, CommitFails}
                || (exists id :: id in old(tables.users) && old(tables.users)[id].email == user.email)
        then tables == old(tables) && born == old(born) && r.Err? && !r.error.InvalidInput?
             && (fault == NoFault ==> r == Err(EmailAlreadyExists))
        else && tables == Tables(old(tables.users)[user.id := user], old(tables.profiles), old(tables.tokens),
                                 old(tables.outbox)[event.id := event])
             && born == old(born)[user.id := Registration(user.email, "USER")]
             && r == (if fault == CommitAnswerLost then Err(StoreFailed) else Ok(user.(passwordHash := "")))
    {
      var user := NewUser(name, email, age, passwordHash, now);
      var fields := InvalidFields(lib, user.name, user.email, age);
      InvalidFieldsIff(lib, user.name, user.email, age);
      if fields != {} {
        return Err(InvalidInput(fields));
      }
      var error := Create(user, None, now, fault);
      r := if error.Some? then Err(error.value) else Ok(Selected(user));
    }

    /** Creates a user and its profile. Unlike CreateUser it checks the input before trimming it. */
    method CreateUserWithProfile(name: string, email: string, age: int, passwordHash: string, bio: string,
                                 now: int, fault: Fault)
      returns (r: Result<(User, Profile), Error>)
      requires Valid()
      modifies this
      ensures Valid() && Follows(old(Now()), Now())
      ensures
        var user := User(old(next.user), lib.trim(name), lib.trim(lib.lower(email)), age, "USER", passwordHash, now, now);
        var profile := Profile(user.id, lib.trim(bio));
        var event := Event(old(next.event), UserRegisteredBody(user.id, user.email, "USER"), New, 0, None, None, None, now);
        var badName := lib.trim(name) == "" || |name| < 2 || |name| > 100;
        var badEmail := lib.trim(email) == "" || |email| > 255 || !lib.isAddress(email);
        var badAge := age < 0 || age > 150;
        if badName || badEmail || badAge
        then && tables == old(tables) && born == old(born) && r.Err? && r.error.InvalidInput?
             && ("name" in r.error.fields <==> badName) && ("email" in r.error.fields <==> badEmail)
             && ("age" in r.error.fields <==> badAge) && r.error.fields <= {"name", "email", "age"}
        else if || fault in {HashFails, BeginFails, ReadFails, UserInsertFails, ProfileInsertFails, MarshalFails,
                             EventInsertFails, CommitFails}
                || (exists id :: id in old(tables.users) && old(tables.users)[id].email == user.email)
        then tables == old(tables) && born == old(born) && r.Err? && !r.error.InvalidInput?
             && (fault == NoFault ==> r == Err(EmailAlreadyExists))
        else && tables == Tables(old(tables.users)[user.id := user], old(tables.profiles)[old(next.profile) := profile], old(tables.tokens),
                                 old(tables.outbox)[event.id := event])
             && born == old(born)[user.id := Registration(user.email, "USER")]
             && r == (if fault == CommitAnswerLost then Err(StoreFailed) else Ok((user.(passwordHash := ""), profile)))
    {
      var fields := InvalidFields(lib, name, email, age);
      InvalidFieldsIff(lib, name, email, age);
      if fields != {} {
        return Err(InvalidInput(fields));
      }
      var user := NewUser(name, email, age, passwordHash, now);
      var error := Create(user, Some(lib.trim(bio)), now, fault);
      r := if error.Some? then Err(error.value) else Ok((Selected(user), Profile(user.id, lib.trim(bio))));
    }

    method FindByEmail(email: string) returns (r: Option<User>)
      requires Valid()
      ensures r.Some? <==> EmailTaken(tables.users, email)
      ensures r.Some? ==> r.value.email == email && r.value.id in tables.users && tables.users[r.value.id] == r.value
    {
      if id :| id in tables.users && tables.users[id].email == email {
        r := Some(tables.users[id]);
      } else {
        r := None;
      }
    }

    /** Inserts a token outside any transaction, as Login does. */
    method IssueToken(userId: int, hash: string, expiresAt: int, fault: Fault) returns (ok: bool)
      requires Valid() && userId in tables.users
      modifies this`tables, this`next
      ensures Valid() && Follows(old(Now()), Now())
      ensures if fault in {NoFault, CommitAnswerLost} && !HashTaken(old(tables.tokens), hash)
              then tables == WithToken(old(tables), old(next.token), userId, hash, expiresAt) && ok == (fault == NoFault)
              else tables == old(tables) && !ok
    {
      if fault == SignFails {
        return false;
      }
      if !Lands(fault) || HashTaken(tables.tokens, hash) {
        BurnToken();
        return false;
      }
      PutToken(userId, hash, expiresAt);
      ok := fault == NoFault;
    }

    /** An insert that fails has used up its sequence value. */
    method BurnToken()
      requires Valid()
      modifies this`next
      ensures Valid() && Follows(old(Now()), Now())
    {
      SequencesBurned(tables, born, eventOf, next, next.(token := next.token + 1));
      next := next.(token := next.token + 1);
    }

    method PutToken(userId: int, hash: string, expiresAt: int)
      requires Valid() && userId in tables.users && !HashTaken(tables.tokens, hash)
      modifies this`tables, this`next
      ensures Valid() && Follows(old(Now()), Now())
      ensures tables == WithToken(old(tables), old(next.token), userId, hash, expiresAt)
    {
      TokenAdded(tables, born, eventOf, next, userId, hash, expiresAt);
      tables := WithToken(tables, next.token, userId, hash, expiresAt);
      next := next.(token := next.token + 1);
    }

    /** Opens a session for a user whose password matched. */
    method Login(email: string, passwordMatches: bool, tokenHash: string, expiresAt: int, fault: Fault)
      returns (r: Result<User, Error>)
      requires Valid()
      modifies this`tables, this`next
      ensures Valid() && Follows(old(Now()), Now())
      ensures
        var e := lib.trim(lib.lower(email));
        if fault == ReadFails then r == Err(StoreFailed) && tables == old(tables)
        else if !passwordMatches || !(exists id :: id in old(tables.users) && old(tables.users)[id].email == e)
        then r == Err(InvalidCredentials) && tables == old(tables)
        else if || fault !in {NoFault, CommitAnswerLost}
                || (exists id :: id in old(tables.tokens) && old(tables.tokens)[id].hash == tokenHash)
        then r == Err(StoreFailed) && tables == old(tables)
        else exists id ::
          && id in old(tables.users) && old(tables.users)[id].email == e
          && r == (if fault == NoFault then Ok(old(tables.users)[id]) else Err(StoreFailed))
          && tables == old(tables).(tokens :=
               old(tables.tokens)[old(next.token) := Token(id, tokenHash, expiresAt, None)])
    {
      if fault == ReadFails {
        return Err(StoreFailed);
      }
      var found := FindByEmail(lib.trim(lib.lower(email)));
      if found.None? || !passwordMatches {
        return Err(InvalidCredentials);
      }
      var ok := IssueToken(found.value.id, tokenHash, expiresAt, fault);
      r := if ok then Ok(found.value) else Err(StoreFailed);
    }

    /** Exchanges an active token for a new one. The new row and the revoke commit together or not at all. */
    method Refresh(hash: string, newHash: string, expiresAt: int, now: int, fault: Fault)
      returns (r: Result<User, Error>)
      requires Valid()
      modifies this`tables, this`next
      ensures Valid() && Follows(old(Now()), Now())
      ensures
        if fault in {BeginFails, ReadFails} then r == Err(StoreFailed) && tables == old(tables)
        else if !exists id :: id in old(tables.tokens) && old(tables.tokens)[id].hash == hash &&
                              old(tables.tokens)[id].revokedAt.None? && now < old(tables.tokens)[id].expiresAt
        then r == Err(Unauthorized) && tables == old(tables)
        else if || fault in {SignFails, TokenInsertFails, RevokeFails, CommitFails}
                || (exists id :: id in old(tables.tokens) && old(tables.tokens)[id].hash == newHash)
        then r == Err(StoreFailed) && tables == old(tables)
        else exists id ::
          && RefreshedAs(old(tables), tables, id, hash, old(next.token), newHash, expiresAt, now)
          && r == (if fault == CommitAnswerLost then Err(StoreFailed)
                   else Ok(old(tables).users[old(tables).tokens[id].userId].(passwordHash := "")))
    {
      if fault == BeginFails {
        return Err(StoreFailed);
      }
      var ids := next;
      UseSequences();
      ghost var id;
      r, tables, id := RefreshTx(tables, ids, hash, newHash, expiresAt, now, fault);
      if r.Ok? {
        RotationKept(old(tables), tables, born, eventOf, ids, id, hash, newHash, expiresAt, now);
        if fault == CommitAnswerLost {
          r := Err(StoreFailed);
        }
      }
    }

    /** The conditional revoke of one row. */
    method Revoke(id: int, now: int)
      requires Valid()
      modifies this`tables
      ensures Valid() && Follows(old(Now()), Now())
      ensures tables == old(tables).(tokens := Revoked(old(tables.tokens), id, now))
    {
      TokenRevoked(tables, born, eventOf, next, id, now);
      if Revocable(tables.tokens, id) {
        var revoked := tables.tokens[id].(revokedAt := Some(now));
        tables := tables.(tokens := tables.tokens[id := revoked]);
      }
    }

    /** Revokes a token, once; an unknown or already revoked token is no error. */
    method Logout(hash: string, now: int, fault: Fault) returns (ok: bool)
      requires Valid()
      modifies this`tables
      ensures Valid() && Follows(old(Now()), Now())
      ensures
        if fault == ReadFails then !ok && tables == old(tables)
        else if forall id | id in old(tables.tokens) && old(tables.tokens)[id].hash == hash ::
                  old(tables.tokens)[id].revokedAt.Some?
        then ok && tables == old(tables)
        else if fault !in {NoFault, CommitAnswerLost} then !ok && tables == old(tables)
        else ok == (fault == NoFault) && exists id ::
          && id in old(tables.tokens) && old(tables.tokens)[id].hash == hash
          && tables == old(tables).(tokens := old(tables.tokens)[id := old(tables.tokens)[id].(revokedAt := Some(now))])
    {
      if fault == ReadFails {
        return false;
      }
      if id :| id in tables.tokens && tables.tokens[id].hash == hash {
        if IsRevoked(tables.tokens[id]) {
          return true;
        }
        if !Lands(fault) {
          return false;
        }
        Revoke(id, now);
        ok := fault == NoFault;
      } else {
        ok := true;
      }
    }

    /** The update statement: no row is UserNotFound, an email of another row is a unique violation. */
    method Update(id: int, name: string, email: string, age: int, now: int) returns (r: Result<User, Error>)
      requires Valid()
      modifies this`tables
      ensures Valid() && Follows(old(Now()), Now())
      ensures
        var users := old(tables.users);
        if id !in users then r == Err(UserNotFound) && tables == old(tables)
        else if exists other :: other in users && other != id && users[other].email == email
        then r == Err(EmailAlreadyExists) && tables == old(tables)
        else && tables == old(tables).(users :=
                  users[id := users[id].(name := name, email := email, age := age, updatedAt := now)])
             && r == Ok(tables.users[id].(passwordHash := ""))
    {
      if id !in tables.users {
        return Err(UserNotFound);
      }
      if exists other | other in tables.users :: other != id && tables.users[other].email == email {
        return Err(EmailAlreadyExists);
      }
      UserChanged(tables, born, eventOf, next, id, name, email, age, now);
      var user := tables.users[id];
      tables := tables.(users := tables.users[id := user.(name := name, email := email, age := age, updatedAt := now)]);
      r := Ok(Selected(tables.users[id]));
    }

    /** The delete statement, with the cascades of its foreign keys. */
    method Delete(id: int) returns (found: bool)
      requires Valid()
      modifies this`tables
      ensures Valid() && Follows(old(Now()), Now())
      ensures found <==> id in old(tables.users)
      ensures tables == if found then WithoutUser(old(tables), id) else old(tables)
      ensures tables.users == old(tables.users) - {id} && tables.outbox == old(tables.outbox)
      ensures found ==> forall p :: p in tables.profiles <==>
                p in old(tables.profiles) && old(tables.profiles)[p].userId != id
      ensures found ==> forall t :: t in tables.tokens <==> t in old(tables.tokens) && old(tables.tokens)[t].userId != id
      ensures forall p | p in tables.profiles :: tables.profiles[p] == old(tables.profiles)[p]
      ensures forall t | t in tables.tokens :: tables.tokens[t] == old(tables.tokens)[t]
    {
      found := id in tables.users;
      if found {
        tables := WithoutUser(tables, id);
      }
    }
  }

  ghost predicate RefreshedAs(before: Tables, after: Tables, id: int, hash: string, newId: int, newHash: string,
                              expiresAt: int, now: int) {
    && id in before.tokens && before.tokens[id].hash == hash
    && before.tokens[id].revokedAt.None? && now < before.tokens[id].expiresAt
    && newId !in before.tokens && !HashTaken(before.tokens, newHash)
    && after == before.(tokens :=
         before.tokens[newId := Token(before.tokens[id].userId, newHash, expiresAt, None)]
                      [id := before.tokens[id].(revokedAt := Some(now))])
  }

  /** The token with this hash was active, is now revoked, and its user holds the new one instead. */
  ghost predicate RefreshedFrom(before: Tables, after: Tables, hash: string, newId: int, newHash: string,
                                expiresAt: int, now: int) {
    exists id :: RefreshedAs(before, after, id, hash, newId, newHash, expiresAt, now)
  }

  /** Rotation keeps the number of live sessions of every user, and the spent token is never active again. */
  lemma RotationKeepsSessions(before: Tables, after: Tables, hash: string, newId: int, newHash: string,
                              expiresAt: int, now: int, userId: int)
    requires TablesOk(before) && RefreshedFrom(before, after, hash, newId, newHash, expiresAt, now)
    ensures |Unrevoked(after.tokens, userId)| == |Unrevoked(before.tokens, userId)|
    ensures forall id | id in after.tokens && after.tokens[id].hash == hash :: after.tokens[id].revokedAt.Some?
  {
    var id :| RefreshedAs(before, after, id, hash, newId, newHash, expiresAt, now);
    var user := before.tokens[id].userId;
    UnrevokedInserted(before.tokens, newId, user, newHash, expiresAt, userId);
    UnrevokedRevoked(before.tokens[newId := Token(user, newHash, expiresAt, None)], id, now, userId);
  }
}
