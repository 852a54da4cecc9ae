/** The user service in front of a cache: the same answers as without it, when calls do not overlap. */
module UserCache {
  import opened Wrappers
  import opened Users
  import opened Identity
  import opened Calls

  datatype CachedUser = CachedUser(
    id: int, name: string, email: string, age: int, role: string, createdAt: int, updatedAt: int)

  function FromDomain(u: User): CachedUser {
    CachedUser(u.id, u.name, u.email, u.age, u.role, u.createdAt, u.updatedAt)
  }

  function ToDomain(c: CachedUser): User {
    User(c.id, c.name, c.email, c.age, c.role, "", c.createdAt, c.updatedAt)
  }

  /** A user survives the cache exactly when it carries no password hash. */
  lemma CacheRoundTripIff(u: User)
    ensures ToDomain(FromDomain(u)) == u <==> u.passwordHash == ""
  {
  }

  /** What becomes of the three store calls of an update: the read of the user, the check whether another has the
      email, which is made only if the email changes, and the update itself. */
  datatype UpdateCalls = UpdateCalls(readFails: bool, checkFails: bool, update: Call)

  /** One call of the service, or something the environment does, with what becomes of the calls in it.
      An update or a delete may reach the store although its answer is lost; entries may expire or be
      evicted at any time. */
  datatype Op =
    | Get(id: int, getFails: bool, setFails: bool, dbFails: bool)
    | Update(id: int, name: string, email: string, age: int, now: int, delFails: bool, calls: UpdateCalls)
    | Delete(id: int, delFails: bool, db: Call)
    | Insert(user: User)
    | Expire(ids: set<int>)

  datatype View = View(users: map<int, User>, cache: map<int, CachedUser>)

  type Reply = Result<Option<User>, Error>

  datatype Answer = Answer(view: View, reply: Reply)

  function Dropped(cache: map<int, CachedUser>, id: int, hasCache: bool, delFails: bool): map<int, CachedUser> {
    if hasCache && !delFails then cache - {id} else cache
  }

  function GetAnswer(v: View, hasCache: bool, id: int, getFails: bool, setFails: bool, dbFails: bool): Answer {
    if id <= 0 then Answer(v, Err(InvalidUserId))
    else if hasCache && !getFails && id in v.cache then Answer(v, Ok(Some(ToDomain(v.cache[id]))))
    else if dbFails then Answer(v, Err(StoreFailed))
    else if id !in v.users then Answer(v, Err(UserNotFound))
    else
      var user := Selected(v.users[id]);
      Answer(if hasCache && !setFails then v.(cache := v.cache[id := FromDomain(user)]) else v, Ok(Some(user)))
  }

  function UpdateAnswer(v: View, hasCache: bool, lib: TextLib, id: int, name: string, email: string, age: int,
                        now: int, delFails: bool, calls: UpdateCalls): Answer {
    var newName, newEmail := lib.trim(name), NormalEmail(lib, email);
    var fields := InvalidFields(lib, newName, newEmail, age);
    if id <= 0 then Answer(v, Err(InvalidUserId))
    else if fields != {} then Answer(v, Err(InvalidInput(fields)))
    else if calls.readFails then Answer(v, Err(StoreFailed))
    else if id !in v.users then Answer(v, Err(UserNotFound))
    else if v.users[id].email != newEmail && calls.checkFails then Answer(v, Err(StoreFailed))
    else if v.users[id].email != newEmail && EmailTaken(v.users, newEmail) then Answer(v, Err(EmailAlreadyExists))
    else if calls.update.Fails? then Answer(v, Err(StoreFailed))
    else
      var user := Changed(v.users[id], newName, newEmail, age, now);
      if calls.update.AnswerLost? then Answer(View(v.users[id := user], v.cache), Err(StoreFailed))
      else Answer(View(v.users[id := user], Dropped(v.cache, id, hasCache, delFails)), Ok(Some(Selected(user))))
  }

  function DeleteAnswer(v: View, hasCache: bool, id: int, delFails: bool, db: Call): Answer {
    if id <= 0 then Answer(v, Err(InvalidUserId))
    else if db.Fails? then Answer(v, Err(StoreFailed))
    else if db.AnswerLost? then Answer(View(v.users - {id}, v.cache), Err(StoreFailed))
    else if id !in v.users then Answer(v, Err(UserNotFound))
    else Answer(View(v.users - {id}, Dropped(v.cache, id, hasCache, delFails)), Ok(None))
  }

  function Handle(v: View, hasCache: bool, lib: TextLib, op: Op): Answer {
    match op
    case Get(id, getFails, setFails, dbFails) => GetAnswer(v, hasCache, id, getFails, setFails, dbFails)
    case Update(id, name, email, age, now, delFails, calls) =>
      UpdateAnswer(v, hasCache, lib, id, name, email, age, now, delFails, calls)
    case Delete(id, delFails, db) => DeleteAnswer(v, hasCache, id, delFails, db)
    case Insert(user) =>
      Answer(if user.id in v.users then v else v.(users := v.users[user.id := user]), Ok(None))
    case Expire(ids) => Answer(v.(cache := v.cache - ids), Ok(None))
  }

  function Replies(v: View, hasCache: bool, lib: TextLib, ops: seq<Op>): (r: seq<Reply>)
    ensures |r| == |ops|
    decreases |ops|
  {
    if ops == [] then []
    else
      var a := Handle(v, hasCache, lib, ops[0]);
      [a.reply] + Replies(a.view, hasCache, lib, ops[1..])
  }

  class UserService {
    const db: Database
    const hasCache: bool
    var cache: map<int, CachedUser>

    constructor (db: Database, hasCache: bool)
      ensures this.db == db && this.hasCache == hasCache && cache == map[]
    {
      this.db, this.hasCache := db, hasCache;
      cache := map[];
    }

    ghost function Now(): View
      reads this, db
    {
      View(db.tables.users, cache)
    }

    method GetUser(id: int, getFails: bool, setFails: bool, dbFails: bool) returns (r: Result<User, Error>)
      requires db.Valid()
      modifies this
      ensures db.Valid()
      ensures GetAnswer(old(Now()), hasCache, id, getFails, setFails, dbFails) == Answer(Now(), AsReply(r))
      ensures
        if id <= 0 then r == Err(InvalidUserId) && cache == old(cache)
        else if hasCache && !getFails && id in old(cache) then
          var c := old(cache)[id];
          r == Ok(User(c.id, c.name, c.email, c.age, c.role, "", c.createdAt, c.updatedAt)) && cache == old(cache)
        else if dbFails then r == Err(StoreFailed) && cache == old(cache)
        else if id !in db.tables.users then r == Err(UserNotFound) && cache == old(cache)
        else
          var u := db.tables.users[id];
          && r == Ok(u.(passwordHash := ""))
          && cache == if hasCache && !setFails
                      then old(cache)[id := CachedUser(id, u.name, u.email, u.age, u.role, u.createdAt, u.updatedAt)]
                      else old(cache)
    {
      if id <= 0 {
        return Err(InvalidUserId);
      }
      if hasCache && !getFails && id in cache {
        return Ok(ToDomain(cache[id]));
      }
      if dbFails {
        return Err(StoreFailed);
      }
      if id !in db.tables.users {
        return Err(UserNotFound);
      }
      var user := Selected(db.tables.users[id]);
      if hasCache && !setFails {
        cache := cache[user.id := FromDomain(user)];
      }
      r := Ok(user);
    }

    method UpdateUser(id: int, name: string, email: string, age: int, now: int, delFails: bool, calls: UpdateCalls)
      returns (r: Result<User, Error>)
      requires db.Valid()
      modifies this, db`tables
      ensures db.Valid()
      ensures UpdateAnswer(old(Now()), hasCache, db.lib, id, name, email, age, now, delFails, calls) ==
              Answer(Now(), AsReply(r))
      ensures
        var n, e := db.lib.trim(name), db.lib.trim(db.lib.lower(email));
        var badName := db.lib.trim(n) == "" || |n| < 2 || |n| > 100;
        var badEmail := db.lib.trim(e) == "" || |e| > 255 || !db.lib.isAddress(e);
        var badAge := age < 0 || age > 150;
        var users := old(db.tables.users);
        if id <= 0 then r == Err(InvalidUserId) && db.tables == old(db.tables) && cache == old(cache)
        else if badName || badEmail || badAge
        then && r.Err? && r.error.InvalidInput? && db.tables == old(db.tables) && cache == old(cache)
             && ("name" in r.error.fields <==> badName) && ("email" in r.error.fields <==> badEmail)
             && ("age" in r.error.fields <==> badAge) && r.error.fields <= {"name", "email", "age"}
        else if calls.readFails then r == Err(StoreFailed) && db.tables == old(db.tables) && cache == old(cache)
        else if id !in users then r == Err(UserNotFound) && db.tables == old(db.tables) && cache == old(cache)
        else if users[id].email != e && calls.checkFails then r == Err(StoreFailed) && db.tables == old(db.tables) && cache == old(cache)
        else if exists other :: other in users && other != id && users[other].email == e
        then r == Err(EmailAlreadyExists) && db.tables == old(db.tables) && cache == old(cache)
        else if calls.update.Fails? then r == Err(StoreFailed) && db.tables == old(db.tables) && cache == old(cache)
        else
          var user := users[id].(name := n, email := e, age := age, updatedAt := now);
          && db.tables == old(db.tables).(users := users[id := user])
          && cache == (if calls.update.Answers? && hasCache && !delFails then old(cache) - {id} else old(cache))
          && r == (if calls.update.Answers? then Ok(user.(passwordHash := "")) else Err(StoreFailed))
    {
      if id <= 0 {
        return Err(InvalidUserId);
      }
      var newName, newEmail := db.lib.trim(name), db.lib.trim(db.lib.lower(email));
      var fields := InvalidFields(db.lib, newName, newEmail, age);
      InvalidFieldsIff(db.lib, newName, newEmail, age);
      if fields != {} {
        return Err(InvalidInput(fields));
      }
      if calls.readFails {
        return Err(StoreFailed);
      }
      if id !in db.tables.users {
        return Err(UserNotFound);
      }
      if db.tables.users[id].email != newEmail {
        if calls.checkFails {
          return Err(StoreFailed);
        }
        if EmailTaken(db.tables.users, newEmail) {
          return Err(EmailAlreadyExists);
        }
      }
      if calls.update.Fails? {
        return Err(StoreFailed);
      }
      r := db.Update(id, newName, newEmail, age, now);
      if r.Err? {
        return;
      }
      if calls.update.AnswerLost? {
        return Err(StoreFailed);
      }
      if hasCache && !delFails {
        cache := cache - {id};
      }
    }

    method DeleteUser(id: int, delFails: bool, call: Call) returns (error: Option<Error>)
      requires db.Valid()
      modifies this, db`tables
      ensures db.Valid()
      ensures DeleteAnswer(old(Now()), hasCache, id, delFails, call) ==
              Answer(Now(), if error.Some? then Err(error.value) else Ok(None))
      ensures
        if id <= 0 then error == Some(InvalidUserId) && db.tables == old(db.tables) && cache == old(cache)
        else if call.Fails? then error == Some(StoreFailed) && db.tables == old(db.tables) && cache == old(cache)
        else && db.tables == (if id in old(db.tables.users) then WithoutUser(old(db.tables), id) else old(db.tables))
             && error == (if call.AnswerLost? then Some(StoreFailed)
                          else if id !in old(db.tables.users) then Some(UserNotFound) else None)
             && cache == if error.None? && hasCache && !delFails then old(cache) - {id} else old(cache)
    {
      if id <= 0 {
        return Some(InvalidUserId);
      }
      if call.Fails? {
        return Some(StoreFailed);
      }
      var found := db.Delete(id);
      if call.AnswerLost? {
        return Some(StoreFailed);
      }
      if !found {
        return Some(UserNotFound);
      }
      if hasCache && !delFails {
        cache := cache - {id};
      }
      error := None;
    }
  }

  function AsReply(r: Result<User, Error>): Reply {
    match r
    case Ok(u) => Ok(Some(u))
    case Err(e) => Err(e)
  }

  // ----- transparency -----

  /** Every cached entry is what a read of the store would give now. */
  ghost predicate Fresh(v: View) {
    && (forall id | id in v.users :: v.users[id].id == id)
    && (forall id | id in v.cache :: id in v.users && ToDomain(v.cache[id]) == Selected(v.users[id]))
  }

  /** The same call with a store that does not fail to be read. */
  function Reliable(op: Op): Op {
    match op
    case Get(id, getFails, setFails, _) => Get(id, getFails, setFails, false)
    case _ => op
  }

  function AllReliable(ops: seq<Op>): (r: seq<Op>)
    ensures |r| == |ops|
  {
    seq(|ops|, i requires 0 <= i < |ops| => Reliable(ops[i]))
  }

  /** The answers are equal, except that the cache may give the right answer where the store cannot be read. */
  predicate Agrees(withCache: Reply, without: Reply, right: Reply) {
    withCache == without || (without == Err(StoreFailed) && withCache == right)
  }

  /** The two ways to change the store without invalidating the cache: the cache delete fails, or the
      change is made but its answer is lost, and then the service returns before the cache delete. */
  datatype Losses = Losses(cacheDelete: bool, storeAnswer: bool)

  predicate Permitted(losses: Losses, op: Op) {
    match op
    case Update(_, _, _, _, _, delFails, calls) =>
      (delFails ==> losses.cacheDelete) && (calls.update.AnswerLost? ==> losses.storeAnswer)
    case Delete(_, delFails, db) => (delFails ==> losses.cacheDelete) && (db.AnswerLost? ==> losses.storeAnswer)
    case _ => true
  }

  const NOTHING_LOST := Losses(false, false)

  lemma HandleKeepsFresh(v: View, w: View, lib: TextLib, op: Op)
    requires Fresh(v) && w.users == v.users && Permitted(NOTHING_LOST, op)
    ensures var a, b := Handle(v, true, lib, op), Handle(w, false, lib, op);
            var c := Handle(w, false, lib, Reliable(op));
            Fresh(a.view) && b.view.users == a.view.users && c.view == b.view && Agrees(a.reply, b.reply, c.reply)
  {
    match op
    case Get(_, _, _, _) =>
    case Update(_, _, _, _, _, _, _) =>
    case Delete(_, _, _) =>
    case Insert(_) =>
    case Expire(_) =>
  }

  /** Any sequence of calls gets the same answers with and without the cache, however the cache's own
      reads and writes fail and entries expire, as long as no invalidation is lost. */
  lemma {:induction false} CacheTransparent(v: View, w: View, lib: TextLib, ops: seq<Op>, i: nat)
    requires Fresh(v) && w.users == v.users && i < |ops|
    requires forall op | op in ops :: Permitted(NOTHING_LOST, op)
    ensures Agrees(Replies(v, true, lib, ops)[i], Replies(w, false, lib, ops)[i],
                   Replies(w, false, lib, AllReliable(ops))[i])
    decreases |ops|
  {
    HandleKeepsFresh(v, w, lib, ops[0]);
    assert AllReliable(ops)[1..] == AllReliable(ops[1..]);
    if i > 0 {
      CacheTransparent(Handle(v, true, lib, ops[0]).view, Handle(w, false, lib, ops[0]).view, lib, ops[1..], i - 1);
    }
  }

  /** The store has this user, without its password hash, and so has the cache if it has any. */
  ghost predicate Shows(v: View, hasCache: bool, u: User) {
    && u.id in v.users && v.users[u.id].(passwordHash := "") == u
    && (hasCache && u.id in v.cache ==> v.cache[u.id] == CachedUser(u.id, u.name, u.email, u.age, u.role, u.createdAt, u.updatedAt))
  }

  predicate Writes(op: Op, id: int) {
    (op.Update? || op.Delete?) && op.id == id
  }

  lemma ShowsOn(v: View, hasCache: bool, lib: TextLib, op: Op, u: User)
    requires Shows(v, hasCache, u) && u.passwordHash == "" && !Writes(op, u.id)
    ensures var a := Handle(v, hasCache, lib, op);
      && Shows(a.view, hasCache, u)
      && (op.Get? && op.id == u.id && a.reply.Ok? ==> a.reply.value == Some(u))
  {
    match op
    case Get(_, _, _, _) =>
    case Update(_, _, _, _, _, _, _) =>
    case Delete(_, _, _) =>
    case Insert(_) =>
    case Expire(_) =>
  }

  lemma {:induction false} ShownThroughout(v: View, hasCache: bool, lib: TextLib, ops: seq<Op>, i: nat, u: User)
    requires Shows(v, hasCache, u) && u.passwordHash == "" && i < |ops|
    requires forall op | op in ops :: !Writes(op, u.id)
    requires ops[i].Get? && ops[i].id == u.id && Replies(v, hasCache, lib, ops)[i].Ok?
    ensures Replies(v, hasCache, lib, ops)[i] == Ok(Some(u))
    decreases |ops|
  {
    ShowsOn(v, hasCache, lib, ops[0], u);
    if i > 0 {
      ShownThroughout(Handle(v, hasCache, lib, ops[0]).view, hasCache, lib, ops[1..], i - 1, u);
    }
  }

  /** Read your write: after an update that was answered and whose invalidation was not lost, whatever calls for
      other users, reads and evictions follow, every read of the user that succeeds gives the updated columns, from
      the cache or from the store. */
  lemma ReadYourWrite(v: View, hasCache: bool, lib: TextLib, write: Op, ops: seq<Op>, i: nat)
    requires write.Update? && Handle(v, hasCache, lib, write).reply.Ok? && (hasCache ==> !write.delFails)
    requires write.id in v.users && v.users[write.id].id == write.id
    requires i < |ops| && forall op | op in ops :: !Writes(op, write.id)
    requires ops[i].Get? && ops[i].id == write.id
    ensures
      var was := v.users[write.id];
      var reply := Replies(Handle(v, hasCache, lib, write).view, hasCache, lib, ops)[i];
      reply.Ok? ==>
        reply.value == Some(User(write.id, lib.trim(write.name), lib.trim(lib.lower(write.email)), write.age, was.role, "",
                                 was.createdAt, write.now))
  {
    var was := v.users[write.id];
    var u := User(write.id, lib.trim(write.name), lib.trim(lib.lower(write.email)), write.age, was.role, "",
                  was.createdAt, write.now);
    var after := Handle(v, hasCache, lib, write).view;
    assert Shows(after, hasCache, u);
    if Replies(after, hasCache, lib, ops)[i].Ok? {
      ShownThroughout(after, hasCache, lib, ops, i, u);
    }
  }

  ghost predicate Transparent(lib: TextLib, ops: seq<Op>) {
    forall i | 0 <= i < |ops| ::
      Agrees(Replies(View(map[], map[]), true, lib, ops)[i], Replies(View(map[], map[]), false, lib, ops)[i],
             Replies(View(map[], map[]), false, lib, AllReliable(ops))[i])
  }

  /** One lost invalidation of either kind is enough to serve a user that no longer exists. */
  lemma LostInvalidation(lib: TextLib, losses: Losses) returns (ops: seq<Op>)
    requires losses != NOTHING_LOST
    ensures !Transparent(lib, ops) && forall op | op in ops :: Permitted(losses, op)
  {
    var u := User(1, "Ann", "ann@example.com", 30, ROLE_USER, "hash", 0, 0);
    var empty := View(map[], map[]);
    var delete := if losses.cacheDelete then Delete(1, true, Answers) else Delete(1, false, AnswerLost);
    ops := [Insert(u), Get(1, false, false, false), delete, Get(1, false, false, false)];
    var a1, b1 := Handle(empty, true, lib, ops[0]), Handle(empty, false, lib, ops[0]);
    var a2, b2 := Handle(a1.view, true, lib, ops[1]), Handle(b1.view, false, lib, ops[1]);
    var a3, b3 := Handle(a2.view, true, lib, ops[2]), Handle(b2.view, false, lib, ops[2]);
    var a4, b4 := Handle(a3.view, true, lib, ops[3]), Handle(b3.view, false, lib, ops[3]);
    assert a4.reply == Ok(Some(Selected(u))) && b4.reply == Err(UserNotFound);
    FourReplies(lib, true, empty, ops);
    FourReplies(lib, false, empty, ops);
  }

  lemma FourReplies(lib: TextLib, hasCache: bool, v: View, ops: seq<Op>)
    requires |ops| == 4
    ensures
      var v1 := Handle(v, hasCache, lib, ops[0]).view;
      var v2 := Handle(v1, hasCache, lib, ops[1]).view;
      var v3 := Handle(v2, hasCache, lib, ops[2]).view;
      Replies(v, hasCache, lib, ops)[3] == Handle(v3, hasCache, lib, ops[3]).reply
  {
    var v1 := Handle(v, hasCache, lib, ops[0]).view;
    var v2 := Handle(v1, hasCache, lib, ops[1]).view;
    var v3 := Handle(v2, hasCache, lib, ops[2]).view;
    assert Replies(v, hasCache, lib, ops)[1..] == Replies(v1, hasCache, lib, ops[1..]);
    assert Replies(v1, hasCache, lib, ops[1..])[1..] == Replies(v2, hasCache, lib, ops[1..][1..]);
    assert Replies(v2, hasCache, lib, ops[1..][1..])[1..] == Replies(v3, hasCache, lib, ops[1..][1..][1..]);
  }

  /** Over all histories from an empty start, the cache is transparent exactly when neither kind of loss
      may happen. */
  lemma TransparencyIff(lib: TextLib, losses: Losses)
    ensures (forall ops | (forall op | op in ops :: Permitted(losses, op)) :: Transparent(lib, ops)) <==>
            !losses.cacheDelete && !losses.storeAnswer
  {
    if losses != NOTHING_LOST {
      var ops := LostInvalidation(lib, losses);
    } else {
      var start := View(map[], map[]);
      forall ops | (forall op | op in ops :: Permitted(losses, op))
        ensures Transparent(lib, ops)
      {
        forall i | 0 <= i < |ops|
          ensures Agrees(Replies(start, true, lib, ops)[i], Replies(start, false, lib, ops)[i],
                         Replies(start, false, lib, AllReliable(ops))[i])
        {
          CacheTransparent(start, start, lib, ops, i);
        }
      }
    }
  }
}
