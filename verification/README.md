# Credential flow of the auth controller, modelled in Dafny

This project models the server-side credential flow of a small social-media
management app: the `signup`, `login` and `logout` request handlers and the
`generateToken` helper in `server/src/controllers/authController.ts`.

The user table is a map from email to user record. Each handler is a pure
function from the table and a request to the next table and the first
response sent. A response is a status, a JSON body and an optional cookie
instruction. The library calls become parameters:

- `bcrypt.hash` and `bcrypt.compare` are the two function values of `Auth.Hasher`.
  The promise that a password matches its own digest is the predicate
  `Auth.HashSound`, required by the lemmas that need it.
- `jwt.sign` is the function value of `Session.Jwt`. It is applied to the
  claims `{userId, email}`, the secret, `"7d"` and the issue time `iat`
  (the clock in whole seconds).
- The Prisma user table is `Store.Db`: a `map<string, User>` keyed by email,
  plus the auto-increment counter for ids.
- `process.env` is `Session.Config`. `JWT_SECRET` is a string, with an unset
  variable written as `""`. `NODE_ENV` decides the cookie's `secure` flag.
- The clock (`Date.now()`, in milliseconds) is `Auth.Env.now`. It stamps
  the token's `iat` and the cookie's expiry. The model also uses it as the
  new record's `createdAt` (see "## Left out").
- The catch-all 500 is driven by `Auth.Env.faults`: the set of awaited calls
  (lookup, hash, insert, compare) that throw during this request.

Files:

- `wrappers.dfy` — `Option`.
- `email.dfy` — the email regex `/^[^\s@]+@[^\s@]+\.[^\s@]+$/`, both as its
  language (`MatchesRegex`) and as the validator signup calls (`IsEmail`), with
  a proof that the two agree.
- `store.dfy` — users, the table, its invariant and the insert.
- `session.dfy` — token generation, the cookie attribute sets, and the `ms`
  notation that gives `"7d"` its meaning.
- `auth.dfy` — the three handlers.
- `protocol.dfy` — requests served in sequence, and properties that span
  several requests.

Behaviour follows the code as written:

- A duplicate email at signup gets 400 "Email already exist".
- Every rejected login (missing field, unknown email, wrong password) gets
  status 400. A throwing call or an unsignable token gets 500.
- Login with an unknown email answers "User already exist". A wrong password
  answers "Invalid credentials". So the answers reveal which emails have
  accounts; `Auth.LoginDistinguishesUnknownEmail` states this.
- Signup's 400 bodies are bare JSON strings. Login's 400 bodies and every
  500 body are `{ error }` objects.
- After a wrong password, the login handler has no `return`. It sends the 400
  and then runs on into token generation and a second response, which Express
  refuses because the headers are already sent. The model returns the first
  response, the 400, which is what the client receives.
- If `JWT_SECRET` is unset, `jwt.sign` throws after the insert. Signup then
  answers 500, but the account exists.

## Model

| member | source | states |
|---|---|---|
| Email.IsEmailMatchesRegex | server/src/controllers/authController.ts:24-28 | The validator accepts a string exactly when the regex matches it: three non-empty runs without `@` or JavaScript whitespace, joined by `@` and `.`; the `.` may be any dot of the domain that is neither its first nor its last character |
| Email.IsEmailThenMatches | server/src/controllers/authController.ts:24-25 | Every string the validator accepts is matched by the regex, cut at its `@` and an inner dot of the domain |
| Email.MatchesThenIsEmail | server/src/controllers/authController.ts:24-25 | Every string the regex matches passes the validator: the part after the `@` is a single run with an inner dot |
| Email.SecondAtRejected | server/src/controllers/authController.ts:24-28 | A string with two `@` characters is rejected |
| Email.SpaceRejected | server/src/controllers/authController.ts:24-28 | A string containing any JavaScript `\s` character is rejected |
| Email.Examples | server/src/controllers/authController.ts:24 | `ada@example.com` and `a@..c` are accepted; `a@.c`, `a@b.` and `@b.c` are rejected |
| Store.Find | server/src/controllers/authController.ts:30-34 | Lookup by email returns a stored record or nothing. In a valid table it finds a record exactly when some stored record carries that email, and the record it returns carries that email |
| Store.Create | server/src/controllers/authController.ts:41-53 | The insert fails exactly when the email is taken. Otherwise it adds one record with the given name, email, digest and time, keeps every other record, and gives it an id no existing record has. It preserves the table invariant |
| Store.EmailsUnique | server/src/controllers/authController.ts:30-38 | In a valid table two records with the same email are the same record |
| Session.GenerateToken | server/src/controllers/authController.ts:10-14 | A token is produced exactly when JWT_SECRET is non-empty; otherwise signing throws |
| Session.LifetimesAgree | server/src/controllers/authController.ts:10-14 | The token's `expiresIn` of `"7d"` denotes 604800000 ms, which equals the cookie's `maxAge` (line 60): token and cookie have equal lifetimes |
| Session.ExpireTogether | server/src/controllers/authController.ts:55-62 | A token signed and a cookie set from the same clock reading expire at the same second: `iat` plus 7 days equals the cookie's `Expires` |
| Session.SessionOptions | server/src/controllers/authController.ts:56-61 | The session cookie is http-only, same-site strict, on path `/`, secure exactly when NODE_ENV is "production", and its `maxAge` is the duration the token's `expiresIn` denotes |
| Session.SessionCookie | server/src/controllers/authController.ts:101-106 | The cookie set by login (and signup, lines 56-61) is named `authToken`, carries the token unchanged, and lives as long as the token |
| Session.ClearSessionCookie | server/src/controllers/authController.ts:125-130 | Logout's clear instruction has the name, `path`, `httpOnly`, `secure` and `sameSite` of every session cookie set under the same configuration |
| Auth.Signup | server/src/controllers/authController.ts:16-73 | A missing or empty field gets 400 "Fields are required". A bad email gets 400 "Invalid email format". A taken email gets 400 "Email already exist". In each of these cases the table is unchanged. A throwing lookup, hash or insert gets the generic 500 and leaves the table unchanged. The table changes exactly when every check and call before the insert passes. It then gains one record with the request's name and email, the digest of the password, and the current time, and no existing record changes. Validity is preserved. If no token can be signed, the record is kept but the answer is the generic 500. The answer is 201 exactly when, in addition, a token can be signed; it then carries only id, name, email and createdAt of the new record, plus the session cookie carrying a token for the new record's id and email, signed now. Any other status sends no cookie |
| Auth.Login | server/src/controllers/authController.ts:75-121 | Never changes the table. A missing field gets 400 "Email and password are required". An unknown email gets 400 "User already exist". A password that does not match the stored digest gets 400 "Invalid credentials" as the first response. A throwing lookup or comparison, or a token that cannot be signed, gets the generic 500. The answer is 200 exactly when the record exists, the password matches, nothing throws and a token can be signed; it then carries only id, name and email. A cookie is set exactly on 200 |
| Auth.Logout | server/src/controllers/authController.ts:123-138 | Always 200, the table unchanged, and a clear instruction that removes any session cookie signup or login set under the same configuration |
| Auth.SignupResponseIgnoresHash | server/src/controllers/authController.ts:47-53 | The signup response is the same whatever hash function is used: the password digest never reaches it |
| Auth.LoginResponseIgnoresDigest | server/src/controllers/authController.ts:108-114 | Two tables that differ only in a record's stored digest produce the same login response when the comparison gives the same verdict |
| Auth.LoginDistinguishesUnknownEmail | server/src/controllers/authController.ts:90-98 | An unknown email and a wrong password get the same status but different bodies |
| Protocol.Serve | server/src/controllers/authController.ts:16-138 | Serving any one request keeps every existing record unchanged and preserves the table invariant. Only signup can change the table |
| Protocol.Replay | server/src/controllers/authController.ts:16-138 | A stream of requests yields one response per request. Records are never removed or altered, and the table invariant (one record per email, distinct ids) is preserved |
| Protocol.ReplayFromEmpty | server/src/controllers/authController.ts:16-138 | Starting from an empty table, the table invariant holds after any stream of requests |
| Protocol.ReadOnlyStream | server/src/controllers/authController.ts:75-138 | A stream of only logins and logouts leaves the table exactly as it was |
| Protocol.SignupThenLogin | server/src/controllers/authController.ts:40-114 | Assume a password matches its own digest. After a 201 signup with (name, email, password) and any further requests, login with (email, password) answers 200, provided nothing throws and a token can be signed. Its user has the id signup reported, the same name and email, and no createdAt |
| Protocol.EmailTakenForever | server/src/controllers/authController.ts:30-38 | After a signup has added an email, no later signup for that email, after any requests, answers 201 or changes the table |

## Left out

- bcrypt, jsonwebtoken and Prisma internals are not modelled. Hashing,
  comparison and signing are uninterpreted functions, and the cost factor 10
  is passed to the hash function but otherwise has no meaning here.
- The Express `req`/`res` objects and `console.error` logging are not modelled.
  Apart from the first response, what happens after a response is sent is not
  modelled.
- Auth.Login: the second, refused response after a wrong password is not
  modelled, and neither is the unhandled rejection it causes. The contract
  speaks only of the first response, the 400.
- Body fields that are JSON values other than strings (numbers, objects) are
  not modelled. A field is either absent or a string, and the empty string is
  falsy.
- Store.Create: ids come from a counter that starts at 1 and advances only on
  a successful insert. The model promises only that a new id is fresh, not
  which value the database sequence picks.
- Auth.Signup: `createdAt` is filled by the database's column default; the
  insert does not pass it. The model takes it from the request's clock
  reading, the same one that stamps the token's `iat`.
- Store.Find: the model assumes the email lookup is an exact, case-sensitive
  string comparison. The datasource and its collation are not part of this
  model.
- The lookup-then-insert race between concurrent signups is not modelled.
  Requests are served one at a time, so the insert's unique-constraint failure
  is unreachable; it maps to the same 500 as the other throws.
- Session.DurationMs reads only `<digits><unit>` with units ms, s, m, h, d and
  w. Other forms of the `ms` notation (spaces, long unit names, decimals,
  years) are not modelled.
- The server bootstrap in `server/src/index.ts` (CORS, cookie parsing, port)
  is not modelled.
- The client pages, the React auth hook and the NextAuth route are UI or
  network clients and are not modelled.
- Token verification, a current-user endpoint and OAuth account linking are
  not modelled. None of them appears in the controller.
- The token's `iat` and the cookie's `Expires` are taken from one clock
  reading. In the program they come from two `Date.now()` calls made
  moments apart, so they can differ by that gap.
