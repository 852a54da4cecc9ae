/** Users, the checks on their input, and the users table. */
module Users {
  datatype User = User(
    id: int, name: string, email: string, age: int, role: string, passwordHash: string,
    createdAt: int, updatedAt: int)

  datatype Error =
    | InvalidInput(fields: set<string>)
    | InvalidUserId
    | UserNotFound
    | EmailAlreadyExists
    | InvalidCredentials
    | Unauthorized
    | StoreFailed

  /** The string functions of Go's library that the service calls: TrimSpace, ToLower, and whether
      mail.ParseAddress accepts. Strings are byte strings. */
  datatype TextLib = TextLib(trim: string -> string, lower: string -> string, isAddress: string -> bool)

  const ROLE_USER := "USER"

  function NormalEmail(lib: TextLib, email: string): string {
    lib.trim(lib.lower(email))
  }

  /** The fields validateUserInput complains about. */
  function InvalidFields(lib: TextLib, name: string, email: string, age: int): set<string> {
    (if lib.trim(name) == "" || |name| < 2 || |name| > 100 then {"name"} else {}) +
    (if lib.trim(email) == "" || |email| > 255 || !lib.isAddress(email) then {"email"} else {}) +
    (if age < 0 || age > 150 then {"age"} else {})
  }

  /** Each field is named exactly when its own check fails. */
  lemma InvalidFieldsIff(lib: TextLib, name: string, email: string, age: int)
    ensures
      var fields := InvalidFields(lib, name, email, age);
      && fields <= {"name", "email", "age"}
      && ("name" in fields <==> lib.trim(name) == "" || |name| < 2 || |name| > 100)
      && ("email" in fields <==> lib.trim(email) == "" || |email| > 255 || !lib.isAddress(email))
      && ("age" in fields <==> age < 0 || age > 150)
  {
    assert "name"[0] != "email"[0] && "name"[0] != "age"[0] && "email"[0] != "age"[0];
  }

  predicate EmailTaken(users: map<int, User>, email: string) {
    exists id | id in users :: users[id].email == email
  }

  /** What the selects by id and the RETURNING clauses give: every column but the password hash. */
  function Selected(u: User): User {
    u.(passwordHash := "")
  }

  function Changed(u: User, name: string, email: string, age: int, now: int): User {
    u.(name := name, email := email, age := age, updatedAt := now)
  }
}
