/** `UserService` and `UserController`: password login, sign-up behind a
    role check and username and email uniqueness checks, the update of a
    profile, deletion and the last-login stamp. Every operation keeps the
    user table's invariant: ids are keys, and usernames and emails are
    unique. */
module Users {
  import opened Wrappers
  import opened Entities
  import opened Tables
  import opened Responses

  /** Some stored user has this username. */
  predicate UsernameTaken(rows: map<int, User>, username: string)
  {
    exists id :: id in rows && rows[id].username == username
  }

  /** Some stored user has this email. */
  predicate EmailTaken(rows: map<int, User>, email: string)
  {
    exists id :: id in rows && rows[id].email == email
  }

  /** What `authenticateUser` gives: the user, null, or an exception from
      the password check. */
  datatype AuthResult = Authenticated(user: User) | Rejected | Threw

  /** A `User` request body as Jackson builds it. `passwordHash` is marked
      `@JsonIgnore`, so the field a body carries is never read from the
      JSON; it is kept here to show what the update writes. */
  datatype UserBody = UserBody(
    id: Option<int>,
    name: Option<string>,
    email: Option<string>,
    username: Option<string>,
    passwordHash: Option<string>,
    role: Option<Role>,
    createdat: Option<Instant>,
    lastlogin: Option<Instant>)

  /** A body that came from a request: its password hash is null. */
  predicate FromRequest(b: UserBody)
  {
    b.passwordHash.None?
  }

  /** The row `saveUser(user)` writes for a body as the code stands
      (UserController.java line 134): the body itself, under `id`. The
      columns `email`, `username` and `password_hash` are NOT NULL, so a body
      missing any of them is refused (None); `createdat` is not updatable and
      stays as stored. */
  function StoredRowAsWritten(stored: User, b: UserBody): (r: Option<User>)
    ensures r.Some? <==> b.email.Some? && b.username.Some? && b.passwordHash.Some?
    ensures r.Some? ==> r.value.passwordHash == b.passwordHash.value
  {
    if b.email.None? || b.username.None? || b.passwordHash.None? then None
    else Some(User(stored.id, b.name, b.email.value, b.username.value, b.passwordHash.value,
                   b.role, stored.createdat, b.lastlogin))
  }

  /** As the code stands, no update that reaches the save succeeds: a
      request body has no password hash, and the column refuses null. */
  lemma UpdateAsWrittenFails(stored: User, b: UserBody)
    requires FromRequest(b)
    ensures StoredRowAsWritten(stored, b).None?
  {
  }

  /** The row an update evidently means to write: the request's profile
      fields over the stored user, keeping its id, password hash and
      creation time. Null email or username is still refused. */
  function UpdatedRow(stored: User, b: UserBody): (r: Option<User>)
    ensures r.Some? <==> b.email.Some? && b.username.Some?
    ensures r.Some? ==> r.value.id == stored.id && r.value.passwordHash == stored.passwordHash &&
                        r.value.createdat == stored.createdat &&
                        r.value.email == b.email.value && r.value.username == b.username.value &&
                        r.value.name == b.name && r.value.role == b.role && r.value.lastlogin == b.lastlogin
  {
    if b.email.None? || b.username.None? then None
    else Some(stored.(name := b.name, email := b.email.value, username := b.username.value,
                      role := b.role, lastlogin := b.lastlogin))
  }

  /** The corrected update succeeds on every request body that names an
      email and a username, where the written one never does, and a body
      repeating the stored profile writes the stored user back. */
  lemma UpdatedRowSucceeds(stored: User, b: UserBody)
    requires FromRequest(b) && b.email.Some? && b.username.Some?
    ensures UpdatedRow(stored, b).Some? && StoredRowAsWritten(stored, b).None?
    ensures (b.email.value == stored.email && b.username.value == stored.username && b.name == stored.name &&
             b.role == stored.role && b.lastlogin == stored.lastlogin) ==> UpdatedRow(stored, b) == Some(stored)
  {
  }

  /** `UserService` over the user table. */
  class UserService {
    const users: UserTable
    /** `BCrypt.checkpw(plain, hashed)`: whether they match, or None where it
        throws (a stored value that is not a BCrypt hash). */
    const checkpw: (string, string) -> Option<bool>
    /** `Instant.now()` at the time of a request, and the database's
        `CURRENT_TIMESTAMP` on insert. */
    const now: Instant
    /** The message of the exception a NOT NULL column raises on save. */
    const nullColumnMessage: string

    constructor (users: UserTable, checkpw: (string, string) -> Option<bool>, now: Instant, nullColumnMessage: string)
      ensures this.users == users && this.checkpw == checkpw && this.now == now
      ensures this.nullColumnMessage == nullColumnMessage
    {
      this.users := users;
      this.checkpw := checkpw;
      this.now := now;
      this.nullColumnMessage := nullColumnMessage;
    }

    /** `authenticateUser` once the user with the username is found
        (lines 34-40): the password check decides; a null password makes it
        throw. */
    function CheckUser(u: User, password: Option<string>): (r: AuthResult)
      reads this
      ensures r.Authenticated? ==> r.user == u
    {
      if password.None? then Threw
      else match checkpw(password.value, u.passwordHash)
        case None => Threw
        case Some(true) => Authenticated(u)
        case Some(false) => Rejected
    }

    /** `findByUsername`: the one user with that username, or none; a null
        username matches nobody. */
    method FindByUsername(username: Option<string>) returns (u: Option<User>)
      requires users.Valid()
      ensures u.Some? <==> username.Some? && UsernameTaken(users.rows, username.value)
      ensures u.Some? ==> u.value.id in users.rows && users.rows[u.value.id] == u.value &&
                          u.value.username == username.value
    {
      if username.Some? && UsernameTaken(users.rows, username.value) {
        var id :| id in users.rows && users.rows[id].username == username.value;
        u := Some(users.rows[id]);
      } else {
        u := None;
      }
    }

    /** `authenticateUser` (lines 31-43): the user when one has the username
        and the password checks out against its stored hash; null when there
        is no such user or the check fails. */
    method AuthenticateUser(username: Option<string>, password: Option<string>) returns (r: AuthResult)
      requires users.Valid()
      ensures username.None? || !UsernameTaken(users.rows, username.value) ==> r == Rejected
      ensures username.Some? ==>
                forall id :: id in users.rows && users.rows[id].username == username.value ==>
                  r == CheckUser(users.rows[id], password)
      ensures r.Authenticated? ==> r.user.id in users.rows && users.rows[r.user.id] == r.user &&
                                   username == Some(r.user.username) &&
                                   password.Some? && checkpw(password.value, r.user.passwordHash) == Some(true)
    {
      var found := FindByUsername(username);
      if found.None? {
        return Rejected;
      }
      r := CheckUser(found.value, password);
    }

    /** `existsByUsername` (lines 157-159). */
    method ExistsByUsername(username: Option<string>) returns (b: bool)
      requires users.Valid()
      ensures b <==> username.Some? && UsernameTaken(users.rows, username.value)
    {
      var found := FindByUsername(username);
      b := found.Some?;
    }

    /** `existsByEmail` (lines 166-168). */
    method ExistsByEmail(email: Option<string>) returns (b: bool)
      requires users.Valid()
      ensures b <==> email.Some? && EmailTaken(users.rows, email.value)
    {
      b := email.Some? && EmailTaken(users.rows, email.value);
    }

    /** `createUser` (lines 119-131): null, with nothing saved, when the
        username or the email is taken. Otherwise a user with the given
        fields, the password stored as given, is inserted under the next id;
        the database fills in its creation time, which the returned object
        does not carry. A missing email, username or password makes the save
        throw. */
    method CreateUser(name: Option<string>, email: Option<string>, username: Option<string>,
                      password: Option<string>, role: Role) returns (r: Result<Option<User>, string>)
      requires users.Valid()
      modifies users
      ensures users.Valid()
      ensures (username.Some? && UsernameTaken(old(users.rows), username.value)) ||
              (email.Some? && EmailTaken(old(users.rows), email.value)) ==>
                r == Success(None) && users.rows == old(users.rows) && users.nextId == old(users.nextId)
      ensures !((username.Some? && UsernameTaken(old(users.rows), username.value)) ||
                (email.Some? && EmailTaken(old(users.rows), email.value))) ==>
                if email.None? || username.None? || password.None? then
                  r == Failure(nullColumnMessage) && users.rows == old(users.rows) && users.nextId == old(users.nextId)
                else
                  var created := User(old(users.nextId), name, email.value, username.value, password.value,
                                      Some(role), None, None);
                  r == Success(Some(created)) &&
                  users.rows == old(users.rows)[created.id := created.(createdat := Some(now))] &&
                  users.nextId == old(users.nextId) + 1
    {
      var byName := FindByUsername(username);
      var byEmail := ExistsByEmail(email);
      if byName.Some? || byEmail {
        return Success(None);
      }
      if email.None? || username.None? || password.None? {
        return Failure(nullColumnMessage);
      }
      var id := users.nextId;
      var created := User(id, name, email.value, username.value, password.value, Some(role), None, None);
      users.rows := users.rows[id := created.(createdat := Some(now))];
      users.nextId := id + 1;
      r := Success(Some(created));
    }

    /** `saveUser` (lines 138-141) as `updateUser` uses it, with the row the
        update writes: the user is overwritten under its id. */
    method SaveUser(row: User)
      requires users.Valid() && row.id in users.rows
      requires !UsernameTaken(users.rows - {row.id}, row.username)
      requires !EmailTaken(users.rows - {row.id}, row.email)
      modifies users
      ensures users.Valid()
      ensures users.rows == old(users.rows)[row.id := row] && users.nextId == old(users.nextId)
    {
      ghost var before := users.rows;
      users.rows := users.rows[row.id := row];
      forall a, b | a in users.rows && b in users.rows && users.rows[a].username == users.rows[b].username
        ensures a == b
      {
        if a != row.id && b != row.id {
          assert before[a].username == before[b].username;
        } else if a != row.id {
          UsernameFreeElsewhere(before, row.id, row.username, a);
        } else if b != row.id {
          UsernameFreeElsewhere(before, row.id, row.username, b);
        }
      }
      forall a, b | a in users.rows && b in users.rows && users.rows[a].email == users.rows[b].email
        ensures a == b
      {
        if a != row.id && b != row.id {
          assert before[a].email == before[b].email;
        } else if a != row.id {
          EmailFreeElsewhere(before, row.id, row.email, a);
        } else if b != row.id {
          EmailFreeElsewhere(before, row.id, row.email, b);
        }
      }
    }

    /** `deleteUser` (lines 147-150): the user with that id is removed and
        no other. */
    method DeleteUser(id: int)
      requires users.Valid()
      modifies users
      ensures users.Valid()
      ensures users.rows == old(users.rows) - {id} && users.nextId == old(users.nextId)
    {
      users.rows := users.rows - {id};
    }

    /** `updateLastLogin` (lines 175-181): a stored user gets the current
        time as its last login; an unknown id changes nothing. */
    method UpdateLastLogin(id: int)
      requires users.Valid()
      modifies users
      ensures users.Valid()
      ensures id !in old(users.rows) ==> users.rows == old(users.rows)
      ensures id in old(users.rows) ==>
                users.rows == old(users.rows)[id := old(users.rows)[id].(lastlogin := Some(now))]
      ensures users.nextId == old(users.nextId)
    {
      if id in users.rows {
        var u := users.rows[id];
        users.rows := users.rows[id := u.(lastlogin := Some(now))];
        assert forall k :: k in users.rows ==> users.rows[k].username == old(users.rows)[k].username &&
                                               users.rows[k].email == old(users.rows)[k].email;
      }
    }
  }

  /** The text of the exception `Role.valueOf` throws for a role that is not
      a constant's name. */
  function NoRoleMessage(name: string): string
  {
    "No enum constant edu.trincoll.siem.Model.Enums.Role." + name
  }

  /** `UserController`. */
  class UserController {
    const service: UserService

    ghost predicate Valid()
      reads this, service, service.users
    {
      service.users.Valid()
    }

    constructor (service: UserService)
      requires service.users.Valid()
      ensures Valid() && this.service == service
    {
      this.service := service;
    }

    /** `login` (lines 28-42): Ok with the user when authentication succeeds,
        otherwise Unauthorized "Invalid credentials"; an exception from the
        password check is a server error. */
    method Login(request: map<string, Option<string>>) returns (resp: Response<User>)
      requires Valid()
      ensures var r := Lookup(request, "username");
              r.None? || !UsernameTaken(service.users.rows, r.value) ==> resp == Unauthorized("Invalid credentials")
      ensures resp.Ok? ==> resp.body.id in service.users.rows && service.users.rows[resp.body.id] == resp.body &&
                           Lookup(request, "username") == Some(resp.body.username) &&
                           Lookup(request, "password").Some? &&
                           service.checkpw(Lookup(request, "password").value, resp.body.passwordHash) == Some(true)
      ensures resp.Ok? || resp == Unauthorized("Invalid credentials") || resp == InternalError
      ensures resp == InternalError <==>
                exists id :: id in service.users.rows && Some(service.users.rows[id].username) == Lookup(request, "username") &&
                             service.CheckUser(service.users.rows[id], Lookup(request, "password")).Threw?
    {
      var username := Lookup(request, "username");
      var password := Lookup(request, "password");
      var r := service.AuthenticateUser(username, password);
      match r
      case Authenticated(u) => resp := Ok(u);
      case Rejected => resp := Unauthorized("Invalid credentials");
      case Threw => resp := InternalError;
    }

    /** `createUser` (lines 87-110). The role is read first: a missing or
        unknown role is a BadRequest carrying the exception's text. Then a
        taken username is refused before a taken email is looked at. A
        missing field is refused by the save; otherwise the user is Created. */
    method CreateUser(request: map<string, Option<string>>) returns (resp: Response<User>)
      requires Valid()
      modifies service.users
      ensures Valid()
      ensures resp.Created? || resp.BadRequest?
      ensures !resp.Created? ==> service.users.rows == old(service.users.rows)
      ensures Lookup(request, "role").None? ==> resp == BadRequest(Some("Error creating user: Name is null"))
      ensures Lookup(request, "role").Some? && RoleValueOf(Lookup(request, "role").value).None? ==>
                resp == BadRequest(Some("Error creating user: " + NoRoleMessage(Lookup(request, "role").value)))
      ensures Lookup(request, "role").Some? && RoleValueOf(Lookup(request, "role").value).Some? ==>
                var username, email := Lookup(request, "username"), Lookup(request, "email");
                (username.Some? && UsernameTaken(old(service.users.rows), username.value) ==>
                   resp == BadRequest(Some("Username already exists"))) &&
                (!(username.Some? && UsernameTaken(old(service.users.rows), username.value)) &&
                 email.Some? && EmailTaken(old(service.users.rows), email.value) ==>
                   resp == BadRequest(Some("Email already exists")))
      ensures resp.Created? ==>
                var u := resp.body;
                u.id == old(service.users.nextId) && u.id !in old(service.users.rows) &&
                Lookup(request, "name") == u.name && Lookup(request, "email") == Some(u.email) &&
                Lookup(request, "username") == Some(u.username) && Lookup(request, "password") == Some(u.passwordHash) &&
                u.role == RoleValueOf(Lookup(request, "role").value) &&
                service.users.rows == old(service.users.rows)[u.id := u.(createdat := Some(service.now))]
    {
      var roleName := Lookup(request, "role");
      if roleName.None? {
        return BadRequest(Some("Error creating user: Name is null"));
      }
      var role := RoleValueOf(roleName.value);
      if role.None? {
        return BadRequest(Some("Error creating user: " + NoRoleMessage(roleName.value)));
      }
      var username, email := Lookup(request, "username"), Lookup(request, "email");
      var nameTaken := service.ExistsByUsername(username);
      if nameTaken {
        return BadRequest(Some("Username already exists"));
      }
      var emailTaken := service.ExistsByEmail(email);
      if emailTaken {
        return BadRequest(Some("Email already exists"));
      }
      var created := service.CreateUser(Lookup(request, "name"), email, username, Lookup(request, "password"), role.value);
      if created.Failure? {
        return BadRequest(Some("Error creating user: " + created.error));
      }
      resp := Created(created.value.value);
    }

    /** `updateUser` (lines 112-136), writing the row `UpdatedRow` gives. A
        path id that differs from the body's is refused before any lookup;
        an unknown id is NotFound; a new username or email that another user
        has is refused, username first, while keeping one's own is allowed.
        The table keeps its uniqueness. */
    method UpdateUser(id: int, body: UserBody) returns (resp: Response<User>)
      requires Valid()
      modifies service.users
      ensures Valid()
      ensures !resp.Ok? ==> service.users.rows == old(service.users.rows)
      ensures body.id != Some(id) ==> resp == BadRequest(Some("ID in path does not match ID in request body"))
      ensures body.id == Some(id) && id !in old(service.users.rows) ==> resp == NotFound
      ensures body.id == Some(id) && id in old(service.users.rows) ==>
                var stored := old(service.users.rows)[id];
                var newName := body.username.Some? && body.username.value != stored.username &&
                               UsernameTaken(old(service.users.rows), body.username.value);
                var newEmail := body.email.Some? && body.email.value != stored.email &&
                                EmailTaken(old(service.users.rows), body.email.value);
                (newName ==> resp == BadRequest(Some("Username already exists"))) &&
                (!newName && newEmail ==> resp == BadRequest(Some("Email already exists"))) &&
                (!newName && !newEmail ==>
                   (UpdatedRow(stored, body).None? ==> resp == InternalError) &&
                   (UpdatedRow(stored, body).Some? ==>
                      resp == Ok(UpdatedRow(stored, body).value) &&
                      service.users.rows == old(service.users.rows)[id := UpdatedRow(stored, body).value]))
    {
      if body.id != Some(id) {
        return BadRequest(Some("ID in path does not match ID in request body"));
      }
      if id !in service.users.rows {
        return NotFound;
      }
      var stored := service.users.rows[id];
      if body.username != Some(stored.username) {
        var taken := service.ExistsByUsername(body.username);
        if taken {
          return BadRequest(Some("Username already exists"));
        }
      }
      if body.email != Some(stored.email) {
        var taken := service.ExistsByEmail(body.email);
        if taken {
          return BadRequest(Some("Email already exists"));
        }
      }
      var row := UpdatedRow(stored, body);
      if row.None? {
        return InternalError;
      }
      UniqueAfterUpdate(service.users.rows, id, row.value);
      service.SaveUser(row.value);
      resp := Ok(row.value);
    }

    /** `deleteUser` (lines 138-146): NotFound for an unknown id; otherwise
        the user is removed and the answer is an empty Ok. */
    method DeleteUser(id: int) returns (resp: Response<User>)
      requires Valid()
      modifies service.users
      ensures Valid()
      ensures id !in old(service.users.rows) ==> resp == NotFound && service.users.rows == old(service.users.rows)
      ensures id in old(service.users.rows) ==> resp == OkEmpty && service.users.rows == old(service.users.rows) - {id}
    {
      if id !in service.users.rows {
        return NotFound;
      }
      service.DeleteUser(id);
      resp := OkEmpty;
    }

    /** `updateLastLogin` (lines 148-157): NotFound for an unknown id;
        otherwise the last login becomes now and the answer is an empty Ok. */
    method UpdateLastLogin(id: int) returns (resp: Response<User>)
      requires Valid()
      modifies service.users
      ensures Valid()
      ensures id !in old(service.users.rows) ==> resp == NotFound && service.users.rows == old(service.users.rows)
      ensures id in old(service.users.rows) ==>
                resp == OkEmpty &&
                service.users.rows == old(service.users.rows)[id := old(service.users.rows)[id].(lastlogin := Some(service.now))]
    {
      if id !in service.users.rows {
        return NotFound;
      }
      service.UpdateLastLogin(id);
      resp := OkEmpty;
    }
  }

  /** A row for a stored id whose username and email are its own or free
      clashes with no other user. */
  lemma UniqueAfterUpdate(rows: map<int, User>, id: int, row: User)
    requires id in rows
    requires row.username == rows[id].username || !UsernameTaken(rows, row.username)
    requires row.email == rows[id].email || !EmailTaken(rows, row.email)
    requires forall a, b :: a in rows && b in rows && rows[a].username == rows[b].username ==> a == b
    requires forall a, b :: a in rows && b in rows && rows[a].email == rows[b].email ==> a == b
    ensures !UsernameTaken(rows - {id}, row.username)
    ensures !EmailTaken(rows - {id}, row.email)
  {
  }

  /** A username free among the other users is not any other user's. */
  lemma UsernameFreeElsewhere(rows: map<int, User>, id: int, username: string, other: int)
    requires !UsernameTaken(rows - {id}, username)
    requires other in rows && other != id
    ensures rows[other].username != username
  {
    assert other in rows - {id};
  }

  /** An email free among the other users is not any other user's. */
  lemma EmailFreeElsewhere(rows: map<int, User>, id: int, email: string, other: int)
    requires !EmailTaken(rows - {id}, email)
    requires other in rows && other != id
    ensures rows[other].email != email
  {
    assert other in rows - {id};
  }
}
