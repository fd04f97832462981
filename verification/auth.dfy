/**
 * The three request handlers of the credential controller: signup, login
 * and logout. Each maps the current user table and a request to the next
 * table and the first response sent.
 *
 * bcrypt and jsonwebtoken are parameters (`Hasher`, `Jwt`); the clock is
 * `Env.now`; `Env.faults` names the store or library calls that throw during
 * the request, which the handlers' catch blocks turn into a 500.
 */
module Auth {
  import opened Wrappers
  import opened Email
  import opened Store
  import opened Session

  /** `bcrypt.hash(plain, rounds)` and `bcrypt.compare(plain, digest)`, left uninterpreted. */
  datatype Hasher = Hasher(hash: (string, nat) -> string, compare: (string, string) -> bool)

  /** The cost factor passed to `bcrypt.hash`; opaque to the model beyond being passed on. */
  const SaltRounds: nat := 10

  /** bcrypt's one promise the flow relies on: a password matches its own digest. */
  ghost predicate HashSound(h: Hasher) {
    forall plain, rounds :: h.compare(plain, h.hash(plain, rounds))
  }

  /** The awaited calls that can throw inside a handler's try block. */
  datatype Call = FindUnique | BcryptHash | CreateUser | BcryptCompare

  /**
   * What a request sees besides the table: configuration, the clock
   * (milliseconds, `Date.now()`), and which calls throw.
   */
  datatype Env = Env(config: Config, now: nat, faults: set<Call>)

  /** A request body field: None when absent (undefined or null). */
  type Field = Option<string>

  /** JavaScript truthiness of a string field: present and non-empty. */
  predicate Truthy(f: Field) {
    f.Some? && f.value != ""
  }

  datatype SignupRequest = SignupRequest(name: Field, email: Field, password: Field)

  datatype LoginRequest = LoginRequest(email: Field, password: Field)

  /** The user fields a response exposes; there is no password field to fill. */
  datatype PublicUser = PublicUser(id: nat, name: string, email: string, createdAt: Option<nat>)

  /** A JSON response body: a bare string, `{ error }`, or `{ success: true, message, user? }`. */
  datatype Body =
    | Text(text: string)
    | Failure(error: string)
    | Success(message: string, user: Option<PublicUser>)

  datatype Response = Response(status: nat, body: Body, cookie: Option<CookieOp>)

  /** The table after the request and the first response sent for it. */
  datatype Outcome = Outcome(db: Db, response: Response)

  const FieldsRequired := "Fields are required"
  const InvalidEmailFormat := "Invalid email format"
  const EmailTaken := "Email already exist"
  const AccountCreated := "Account created successfully"
  const CredentialsRequired := "Email and password are required"
  const UnknownUser := "User already exist"
  const InvalidCredentials := "Invalid credentials"
  const LoginSuccessful := "Login Successful"
  const LoggedOut := "Logged out successfully"

  /** What every catch block sends. */
  const ServerError := Response(500, Failure("Invalid server error, Something went wrong"), None)

  function Reject(db: Db, body: Body): Outcome {
    Outcome(db, Response(400, body, None))
  }

  /** The projection signup selects from the created row. */
  function SignupView(u: User): PublicUser {
    PublicUser(u.id, u.name, u.email, Some(u.createdAt))
  }

  /** The projection login builds by hand. */
  function LoginView(u: User): PublicUser {
    PublicUser(u.id, u.name, u.email, None)
  }

  predicate SignupFieldsPresent(req: SignupRequest) {
    Truthy(req.name) && Truthy(req.password) && Truthy(req.email)
  }

  /** The request passes every check and every store/hash call before the insert succeeds. */
  predicate SignupAccepted(db: Db, req: SignupRequest, env: Env) {
    && SignupFieldsPresent(req)
    && IsEmail(req.email.value)
    && FindUnique !in env.faults
    && req.email.value !in db.users
    && BcryptHash !in env.faults
    && CreateUser !in env.faults
  }

  /**
   * POST /signup. Checks run in the source's order: all fields, email shape,
   * uniqueness, then hash, insert, token, cookie. A token that cannot be
   * signed throws after the insert, so the account exists although the
   * caller sees a 500.
   */
  function Signup(db: Db, req: SignupRequest, h: Hasher, jwt: Jwt, env: Env): (out: Outcome)
    ensures !SignupFieldsPresent(req) ==> out == Reject(db, Text(FieldsRequired))
    ensures SignupFieldsPresent(req) && !IsEmail(req.email.value) ==> out == Reject(db, Text(InvalidEmailFormat))
    ensures && SignupFieldsPresent(req) && IsEmail(req.email.value) && FindUnique !in env.faults
            && req.email.value in db.users
            ==> out == Reject(db, Text(EmailTaken))
    ensures && SignupFieldsPresent(req) && IsEmail(req.email.value) && FindUnique in env.faults
            ==> out == Outcome(db, ServerError)
    ensures && SignupFieldsPresent(req) && IsEmail(req.email.value) && FindUnique !in env.faults
            && req.email.value !in db.users && (BcryptHash in env.faults || CreateUser in env.faults)
            ==> out == Outcome(db, ServerError)
    ensures SignupAccepted(db, req, env) && !CanSign(env.config) ==> out.response == ServerError
    ensures out.db != db <==> SignupAccepted(db, req, env)
    ensures out.db != db ==>
              var e := req.email.value;
              && e !in db.users
              && out.db.users.Keys == db.users.Keys + {e}
              && out.db.users[e].name == req.name.value
              && out.db.users[e].email == e
              && out.db.users[e].password == h.hash(req.password.value, SaltRounds)
              && out.db.users[e].createdAt == env.now
    ensures Extends(db, out.db)
    ensures Valid(db) ==> Valid(out.db)
    ensures out.response.status == 201 <==> SignupAccepted(db, req, env) && CanSign(env.config)
    ensures out.response.status == 201 ==>
              var u := out.db.users[req.email.value];
              && out.response.body == Success(AccountCreated, Some(SignupView(u)))
              && out.response.cookie
                 == Some(SessionCookie(env.config, jwt.sign(Claims(u.id, u.email), env.config.jwtSecret, TokenExpiresIn, IssuedAt(env.now))))
    ensures out.response.status != 201 ==> out.response.cookie == None
    ensures out.response.status in {201, 400, 500}
  {
    if !SignupFieldsPresent(req) then
      Reject(db, Text(FieldsRequired))
    else
      var name, email, password := req.name.value, req.email.value, req.password.value;
      if !IsEmail(email) then
        Reject(db, Text(InvalidEmailFormat))
      else if FindUnique in env.faults then
        Outcome(db, ServerError)
      else if Find(db, email).Some? then
        Reject(db, Text(EmailTaken))
      else if BcryptHash in env.faults || CreateUser in env.faults then
        Outcome(db, ServerError)
      else
        var hashed := h.hash(password, SaltRounds);
        match Create(db, name, email, hashed, env.now)
        case None =>
          // the unique constraint fires; unreachable after the lookup above
          Outcome(db, ServerError)
        case Some(created) =>
          var user := created.user;
          match GenerateToken(env.config, jwt, user.id, user.email, env.now)
          case None =>
            Outcome(created.db, ServerError)
          case Some(token) =>
            var cookie := SessionCookie(env.config, token);
            Outcome(created.db, Response(201, Success(AccountCreated, Some(SignupView(user))), Some(cookie)))
  }

  predicate LoginFieldsPresent(req: LoginRequest) {
    Truthy(req.email) && Truthy(req.password)
  }

  /** The request reaches the password comparison with a stored record for its email. */
  predicate LoginReachesCompare(db: Db, req: LoginRequest, env: Env) {
    && LoginFieldsPresent(req)
    && FindUnique !in env.faults
    && req.email.value in db.users
    && BcryptCompare !in env.faults
  }

  /**
   * POST /login. Never writes to the table.
   *
   * On a password mismatch the source sends the 400 but has no `return`, so
   * the handler runs on into token generation and a second response, which
   * Express refuses once headers are sent. The first response, the one the
   * client sees, is the 400; that is what this function returns.
   */
  function Login(db: Db, req: LoginRequest, h: Hasher, jwt: Jwt, env: Env): (out: Outcome)
    ensures out.db == db
    ensures !LoginFieldsPresent(req) ==> out.response == Response(400, Failure(CredentialsRequired), None)
    ensures && LoginFieldsPresent(req) && FindUnique !in env.faults && req.email.value !in db.users
            ==> out.response == Response(400, Failure(UnknownUser), None)
    ensures LoginFieldsPresent(req) && FindUnique in env.faults ==> out.response == ServerError
    ensures && LoginFieldsPresent(req) && FindUnique !in env.faults && req.email.value in db.users
            && BcryptCompare in env.faults
            ==> out.response == ServerError
    ensures && LoginReachesCompare(db, req, env)
            && h.compare(req.password.value, db.users[req.email.value].password)
            && !CanSign(env.config)
            ==> out.response == ServerError
    ensures && LoginReachesCompare(db, req, env)
            && !h.compare(req.password.value, db.users[req.email.value].password)
            ==> out.response == Response(400, Failure(InvalidCredentials), None)
    ensures out.response.status == 200 <==>
              && LoginReachesCompare(db, req, env)
              && h.compare(req.password.value, db.users[req.email.value].password)
              && CanSign(env.config)
    ensures out.response.status == 200 ==>
              var u := db.users[req.email.value];
              && out.response.body == Success(LoginSuccessful, Some(LoginView(u)))
              && out.response.cookie
                 == Some(SessionCookie(env.config, jwt.sign(Claims(u.id, u.email), env.config.jwtSecret, TokenExpiresIn, IssuedAt(env.now))))
    ensures out.response.cookie.Some? <==> out.response.status == 200
    ensures out.response.status in {200, 400, 500}
  {
    if !LoginFieldsPresent(req) then
      Reject(db, Failure(CredentialsRequired))
    else
      var email, password := req.email.value, req.password.value;
      if FindUnique in env.faults then
        Outcome(db, ServerError)
      else
        match Find(db, email)
        case None =>
          Reject(db, Failure(UnknownUser))
        case Some(user) =>
          if BcryptCompare in env.faults then
            Outcome(db, ServerError)
          else if !h.compare(password, user.password) then
            // no `return` follows in the source: see the note above
            Reject(db, Failure(InvalidCredentials))
          else
            match GenerateToken(env.config, jwt, user.id, user.email, env.now)
            case None =>
              Outcome(db, ServerError)
            case Some(token) =>
              var cookie := SessionCookie(env.config, token);
              Outcome(db, Response(200, Success(LoginSuccessful, Some(LoginView(user))), Some(cookie)))
  }

  /**
   * POST /logout. Unconditional: the table is untouched, the answer is 200,
   * and the clear instruction removes any session cookie signup or login
   * set under the same configuration.
   */
  function Logout(db: Db, env: Env): (out: Outcome)
    ensures out.db == db
    ensures out.response.status == 200
    ensures out.response.cookie.Some?
    ensures forall token :: Clears(out.response.cookie.value, SessionCookie(env.config, token))
  {
    Outcome(db, Response(200, Success(LoggedOut, None), Some(ClearSessionCookie(env.config))))
  }

  /** The signup response does not depend on how passwords are hashed: the digest never reaches it. */
  lemma SignupResponseIgnoresHash(db: Db, req: SignupRequest, h1: Hasher, h2: Hasher, jwt: Jwt, env: Env)
    ensures Signup(db, req, h1, jwt, env).response == Signup(db, req, h2, jwt, env).response
  {
  }

  /**
   * The login response does not depend on the stored digest beyond the
   * comparison's verdict: tables that differ only in a record's digest,
   * with the same verdict, answer alike.
   */
  lemma LoginResponseIgnoresDigest(db: Db, req: LoginRequest, digest: string, h: Hasher, jwt: Jwt, env: Env)
    requires LoginFieldsPresent(req) && req.email.value in db.users
    requires h.compare(req.password.value, digest) == h.compare(req.password.value, db.users[req.email.value].password)
    ensures var e := req.email.value;
            var other := Db(db.users[e := db.users[e].(password := digest)], db.nextId);
            Login(other, req, h, jwt, env).response == Login(db, req, h, jwt, env).response
  {
  }

  /**
   * An unknown email and a wrong password get the same status but different
   * bodies, so the answers reveal which emails have accounts.
   */
  lemma LoginDistinguishesUnknownEmail(db: Db, req1: LoginRequest, req2: LoginRequest, h: Hasher, jwt: Jwt, env: Env)
    requires LoginFieldsPresent(req1) && LoginFieldsPresent(req2)
    requires FindUnique !in env.faults && BcryptCompare !in env.faults
    requires req1.email.value !in db.users
    requires req2.email.value in db.users && !h.compare(req2.password.value, db.users[req2.email.value].password)
    ensures Login(db, req1, h, jwt, env).response.status == Login(db, req2, h, jwt, env).response.status
    ensures Login(db, req1, h, jwt, env).response.body != Login(db, req2, h, jwt, env).response.body
  {
  }
}
