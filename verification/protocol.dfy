/**
 * The auth routes as one sequential state machine: a stream of requests,
 * each with its own environment, served one after another against the
 * user table. Requests never interleave (see the README on the lookup/insert
 * race).
 */
module Protocol {
  import opened Wrappers
  import opened Store
  import opened Session
  import opened Auth

  datatype Request =
    | SignupCall(signup: SignupRequest)
    | LoginCall(login: LoginRequest)
    | LogoutCall

  /** One request together with the environment it is served in. */
  datatype Exchange = Exchange(request: Request, env: Env)

  /** Route a request to its handler. */
  function Serve(db: Db, x: Exchange, h: Hasher, jwt: Jwt): (out: Outcome)
    ensures Extends(db, out.db)
    ensures Valid(db) ==> Valid(out.db)
    ensures !x.request.SignupCall? ==> out.db == db
  {
    match x.request
    case SignupCall(req) => Signup(db, req, h, jwt, x.env)
    case LoginCall(req) => Login(db, req, h, jwt, x.env)
    case LogoutCall => Logout(db, x.env)
  }

  /** The final table and the responses, in order, of a stream of requests. */
  datatype Trace = Trace(db: Db, responses: seq<Response>)

  /**
   * Serve a stream of requests in order. Records are only ever added: every
   * record present at the start is present, unchanged, at the end, and the
   * table's invariant (one record per email, distinct ids) holds throughout.
   */
  function Replay(db: Db, xs: seq<Exchange>, h: Hasher, jwt: Jwt): (t: Trace)
    ensures |t.responses| == |xs|
    ensures Extends(db, t.db)
    ensures Valid(db) ==> Valid(t.db)
    decreases |xs|
  {
    if |xs| == 0 then Trace(db, [])
    else
      var out := Serve(db, xs[0], h, jwt);
      var rest := Replay(out.db, xs[1..], h, jwt);
      Trace(rest.db, [out.response] + rest.responses)
  }

  /** Starting from an empty table, one record per email and distinct ids hold after any stream. */
  lemma ReplayFromEmpty(xs: seq<Exchange>, h: Hasher, jwt: Jwt)
    ensures Valid(Replay(Empty, xs, h, jwt).db)
  {
    EmptyValid();
  }

  /** A stream of logins and logouts leaves the table exactly as it was. */
  lemma {:induction false} ReadOnlyStream(db: Db, xs: seq<Exchange>, h: Hasher, jwt: Jwt)
    requires forall k :: 0 <= k < |xs| ==> !xs[k].request.SignupCall?
    ensures Replay(db, xs, h, jwt).db == db
    decreases |xs|
  {
    if |xs| > 0 {
      ReadOnlyStream(db, xs[1..], h, jwt);
    }
  }

  /**
   * Given that a password matches its own digest: once signup with
   * (name, email, password) has answered 201, a login with (email, password)
   * after any further requests answers 200 with the same id, name and email
   * (and no creation time), provided the lookup and comparison do not throw
   * and a token can be signed.
   */
  lemma SignupThenLogin(db: Db, name: string, email: string, password: string,
                        h: Hasher, jwt: Jwt, env: Env, xs: seq<Exchange>, loginEnv: Env)
    requires HashSound(h)
    requires Signup(db, SignupRequest(Some(name), Some(email), Some(password)), h, jwt, env).response.status == 201
    requires FindUnique !in loginEnv.faults && BcryptCompare !in loginEnv.faults && CanSign(loginEnv.config)
    ensures var created := Signup(db, SignupRequest(Some(name), Some(email), Some(password)), h, jwt, env);
            var later := Replay(created.db, xs, h, jwt).db;
            var out := Login(later, LoginRequest(Some(email), Some(password)), h, jwt, loginEnv);
            && out.response.status == 200
            && out.response.body.user.Some?
            && created.response.body.user.Some?
            && out.response.body.user.value.id == created.response.body.user.value.id
            && out.response.body.user.value.name == name
            && out.response.body.user.value.email == email
            && out.response.body.user.value.createdAt == None
  {
    var created := Signup(db, SignupRequest(Some(name), Some(email), Some(password)), h, jwt, env);
    var later := Replay(created.db, xs, h, jwt).db;
    assert email in created.db.users;
    assert later.users[email] == created.db.users[email];
    assert h.compare(password, h.hash(password, SaltRounds));
  }

  /** Once an email has an account, no later signup for it succeeds or changes the table. */
  lemma EmailTakenForever(db: Db, req: SignupRequest, h: Hasher, jwt: Jwt, env: Env,
                          xs: seq<Exchange>, again: SignupRequest, againEnv: Env)
    requires Signup(db, req, h, jwt, env).db != db
    requires again.email == req.email
    ensures var later := Replay(Signup(db, req, h, jwt, env).db, xs, h, jwt).db;
            var out := Signup(later, again, h, jwt, againEnv);
            && out.db == later
            && out.response.status != 201
  {
    var first := Signup(db, req, h, jwt, env);
    var later := Replay(first.db, xs, h, jwt).db;
    assert req.email.value in first.db.users;
    assert req.email.value in later.users;
  }
}
