/** The account endpoints (backend/src/routes/auth.routes.js): register,
    login, and `/me` behind the bearer-token middleware. */
module AuthRoutes {
  import opened Common
  import opened Text
  import opened Store
  import opened Schema
  import opened Middleware

  /** The user fields `register` and `/me` select: never the password hash. */
  datatype PublicUser = PublicUser(id: Id, name: string, email: string, createdAt: nat)

  /** The user fields `login` returns. */
  datatype LoginUser = LoginUser(id: Id, name: string, email: string)

  datatype LoginBody = LoginBody(token: string, user: LoginUser)

  /** The password-hashing library: `hash` (salt and cost included) and
      `compare`. */
  datatype Bcrypt = Bcrypt(hash: string -> string, compare: (string, string) -> bool)

  /** What the model relies on from it: a password matches its own hash. */
  ghost predicate BcryptSound(b: Bcrypt) {
    forall p :: b.compare(p, b.hash(p))
  }

  function Public(u: User): PublicUser {
    PublicUser(u.id, u.data.name, u.data.email, u.createdAt)
  }

  /** Some stored user has this email. */
  predicate EmailTaken(users: seq<User>, email: string) {
    exists i :: 0 <= i < |users| && users[i].data.email == email
  }

  /** The body `POST /auth/register` accepts. */
  predicate RegisterBodyValid(name: Option<Field>, email: Option<Field>, password: Option<Field>, isEmail: string -> bool) {
    StringMin(name, 2) && EmailField(email, isEmail) && StringMin(password, 6)
  }

  /** `POST /auth/register`. A body that fails its schema writes nothing; an
      email already stored gives 409 and writes nothing; otherwise one user
      is appended with the password's hash (not the password), and the
      reply holds only its public fields. Emails stay unique. */
  method Register(db: Db, name: Option<Field>, email: Option<Field>, password: Option<Field>, isEmail: string -> bool, b: Bcrypt)
    returns (r: Reply<PublicUser>)
    requires db.Valid()
    modifies db
    ensures db.Valid()
    ensures !RegisterBodyValid(name, email, password, isEmail) ==> r == Invalid && unchanged(db)
    ensures RegisterBodyValid(name, email, password, isEmail) && EmailTaken(old(db.users), email.value.s)
            ==> r == Fail(409, "Email already exists") && unchanged(db)
    ensures RegisterBodyValid(name, email, password, isEmail) && !EmailTaken(old(db.users), email.value.s) ==>
              && db.users == old(db.users) + [Row(old(db.clock), old(db.clock), UserData(name.value.s, email.value.s, b.hash(password.value.s)))]
              && r == Ok(201, PublicUser(old(db.clock), name.value.s, email.value.s, old(db.clock)))
              && db.clock == old(db.clock) + 1
              && db.projects == old(db.projects) && db.prompts == old(db.prompts)
              && db.chats == old(db.chats) && db.messages == old(db.messages)
  {
    if !RegisterBodyValid(name, email, password, isEmail) {
      return Invalid;
    }
    var existing := UserByEmail(db.users, email.value.s);
    if existing.Some? {
      return Fail(409, "Email already exists");
    }
    var passwordHash := b.hash(password.value.s);
    var user := db.InsertUser(UserData(name.value.s, email.value.s, passwordHash));
    r := Ok(201, Public(user));
  }

  /** The body `POST /auth/login` accepts. */
  predicate LoginBodyValid(email: Option<Field>, password: Option<Field>, isEmail: string -> bool) {
    EmailField(email, isEmail) && StringMin(password, 6)
  }

  /** `POST /auth/login`. The body is checked before any lookup. An unknown
      email and a wrong password fail with the same 401 body. On success the
      token is signed over exactly `{ userId, email }` of the user found, and
      the reply carries that user's id, name and email. */
  function Login(users: seq<User>, email: Option<Field>, password: Option<Field>, isEmail: string -> bool, b: Bcrypt, jwt: Jwt)
    : (r: Reply<LoginBody>)
    ensures !LoginBodyValid(email, password, isEmail) <==> r == Invalid
    ensures r.Fail? ==> r == Fail(401, "Invalid credentials")
    ensures LoginBodyValid(email, password, isEmail) && !r.Ok? ==> r == Fail(401, "Invalid credentials")
    ensures LoginBodyValid(email, password, isEmail) && !EmailTaken(users, email.value.s) ==> r == Fail(401, "Invalid credentials")
    ensures r.Ok? ==> r.status == 200
    ensures r.Ok? ==> exists i :: && 0 <= i < |users|
                                  && users[i].data.email == email.value.s
                                  && b.compare(password.value.s, users[i].data.passwordHash)
                                  && r.body == LoginBody(jwt.sign(Claims(users[i].id, users[i].data.email)),
                                                         LoginUser(users[i].id, users[i].data.name, users[i].data.email))
    ensures UniqueEmails(users) && LoginBodyValid(email, password, isEmail) ==>
              (r.Ok? <==> exists i :: 0 <= i < |users| && users[i].data.email == email.value.s
                                      && b.compare(password.value.s, users[i].data.passwordHash))
  {
    if !LoginBodyValid(email, password, isEmail) then Invalid
    else
      match UserByEmail(users, email.value.s)
      case None => Fail(401, "Invalid credentials")
      case Some(user) =>
        if !b.compare(password.value.s, user.data.passwordHash) then Fail(401, "Invalid credentials")
        else Ok(200, LoginBody(jwt.sign(Claims(user.id, user.data.email)), LoginUser(user.id, user.data.name, user.data.email)))
  }

  /** `GET /auth/me`: the public fields of the user the token names, or null
      when no such user is stored. */
  function Me(users: seq<User>, caller: Id): (r: Reply<Option<PublicUser>>)
    ensures r.Ok? && r.status == 200
    ensures r.body.None? <==> forall i :: 0 <= i < |users| ==> users[i].id != caller
    ensures r.body.Some? ==> exists i :: 0 <= i < |users| && users[i].id == caller && r.body.value == Public(users[i])
  {
    match UserById(users, caller)
    case None => Ok(200, None)
    case Some(user) => Ok(200, Some(Public(user)))
  }

  /** Whoever registers can log in with the same email and password, and gets
      a token for the new user. */
  lemma RegisterThenLogin(users: seq<User>, clock: nat, name: string, email: string, password: string,
                          isEmail: string -> bool, b: Bcrypt, jwt: Jwt)
    requires BcryptSound(b)
    requires RegisterBodyValid(Some(Str(name)), Some(Str(email)), Some(Str(password)), isEmail)
    requires !EmailTaken(users, email)
    ensures var after := users + [Row(clock, clock, UserData(name, email, b.hash(password)))];
            Login(after, Some(Str(email)), Some(Str(password)), isEmail, b, jwt)
              == Ok(200, LoginBody(jwt.sign(Claims(clock, email)), LoginUser(clock, name, email)))
  {
    var row := Row(clock, clock, UserData(name, email, b.hash(password)));
    var after := users + [row];
    var found := UserByEmail(after, email);
    assert after[|users|] == row;
    assert found == Some(row) by {
      var i :| 0 <= i < |after| && found.value == after[i] && after[i].data.email == email;
      assert i == |users|;
    }
    assert b.compare(password, b.hash(password));
  }

  /** The email of a user just appended is taken. */
  lemma RegisteredEmailIsTaken(users: seq<User>, row: User)
    ensures EmailTaken(users + [row], row.data.email)
  {
    assert (users + [row])[|users|] == row;
  }

  /** Two registrations with the same body, one after the other: when the
      first succeeds, the second is refused with 409 and writes nothing, so
      the store holds exactly the one new user. */
  method RegisterTwice(db: Db, name: Option<Field>, email: Option<Field>, password: Option<Field>,
                       isEmail: string -> bool, b: Bcrypt)
    returns (first: Reply<PublicUser>, second: Reply<PublicUser>)
    requires db.Valid()
    modifies db
    ensures db.Valid()
    ensures first.Ok? ==>
              && RegisterBodyValid(name, email, password, isEmail)
              && second == Fail(409, "Email already exists")
              && db.users == old(db.users) + [Row(old(db.clock), old(db.clock), UserData(name.value.s, email.value.s, b.hash(password.value.s)))]
              && db.clock == old(db.clock) + 1
              && db.projects == old(db.projects) && db.prompts == old(db.prompts)
              && db.chats == old(db.chats) && db.messages == old(db.messages)
  {
    ghost var before := db.users;
    first := Register(db, name, email, password, isEmail, b);
    if first.Ok? {
      RegisteredEmailIsTaken(before, db.users[|db.users| - 1]);
      assert before + [db.users[|db.users| - 1]] == db.users;
    }
    second := Register(db, name, email, password, isEmail, b);
  }

  /** The token a successful login returns gets through the middleware as the
      user who logged in, and `/me` then answers with that user. */
  lemma LoginTokenAuthenticates(users: seq<User>, clock: nat, email: Option<Field>, password: Option<Field>,
                                isEmail: string -> bool, b: Bcrypt, jwt: Jwt)
    requires JwtSound(jwt)
    requires Stamped(users, clock)
    requires Login(users, email, password, isEmail, b, jwt).Ok?
    ensures var body := Login(users, email, password, isEmail, b, jwt).body;
            && Guard(Some(BearerPrefix + body.token), jwt.verify) == Next(AuthUser(body.user.id, body.user.email))
            && Me(users, body.user.id).body.Some?
            && Me(users, body.user.id).body.value.email == body.user.email
  {
    var body := Login(users, email, password, isEmail, b, jwt).body;
    var i :| 0 <= i < |users| && users[i].data.email == email.value.s
             && body == LoginBody(jwt.sign(Claims(users[i].id, users[i].data.email)),
                                  LoginUser(users[i].id, users[i].data.name, users[i].data.email));
    IssuedTokenAccepted(jwt, Claims(users[i].id, users[i].data.email), "");
    var me := Me(users, users[i].id).body;
    var j :| 0 <= j < |users| && users[j].id == users[i].id && me.value == Public(users[j]);
    assert i == j;
  }
}
