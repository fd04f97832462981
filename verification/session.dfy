/**
 * Session tokens and the cookie that carries them.
 *
 * jsonwebtoken's `sign` is a parameter (`Jwt`); the model keeps only what
 * the controller decides: the claims, the secret, the `"7d"` horizon, and the
 * fact that signing throws when the secret is missing. The cookie is the
 * attribute set passed to Express's `res.cookie` / `res.clearCookie`.
 */
module Session {
  import opened Wrappers

  /**
   * The process environment as the controller reads it. An unset variable
   * is modelled as the empty string: both are falsy and treated alike.
   */
  datatype Config = Config(jwtSecret: string, nodeEnv: string)

  /** The payload signed into every token. */
  datatype Claims = Claims(userId: nat, email: string)

  /**
   * `jwt.sign(payload, secret, { expiresIn })`, left uninterpreted. The last
   * argument is the `iat` claim jsonwebtoken stamps from the clock, in whole
   * seconds; it sets `exp` to `iat` plus the `expiresIn` duration.
   */
  datatype Jwt = Jwt(sign: (Claims, string, string, nat) -> string)

  const CookieName := "authToken"

  /** The `expiresIn` option given to `jwt.sign`. */
  const TokenExpiresIn := "7d"

  /** The `maxAge` option of the session cookie, in milliseconds: 7 * 24 * 60 * 60 * 1000. */
  const CookieMaxAgeMs: nat := 7 * 24 * 60 * 60 * 1000

  /** `secure` is on exactly when NODE_ENV is "production". */
  predicate Secure(cfg: Config) {
    cfg.nodeEnv == "production"
  }

  /** jsonwebtoken refuses to sign with a falsy secret; everything else signs. */
  predicate CanSign(cfg: Config) {
    cfg.jwtSecret != ""
  }

  /** The `iat` claim for a token signed at clock reading `nowMs` (milliseconds). */
  function IssuedAt(nowMs: nat): nat {
    nowMs / 1000
  }

  /**
   * `generateToken(userId, email)` at clock reading `nowMs`. None stands for
   * the exception `jwt.sign` throws, which happens exactly when JWT_SECRET is
   * unset or empty.
   */
  function GenerateToken(cfg: Config, jwt: Jwt, userId: nat, email: string, nowMs: nat): (t: Option<string>)
    ensures t.Some? <==> cfg.jwtSecret != ""
  {
    if CanSign(cfg) then Some(jwt.sign(Claims(userId, email), cfg.jwtSecret, TokenExpiresIn, IssuedAt(nowMs)))
    else None
  }

  /** The options object of a cookie call; `maxAge` is absent when clearing. */
  datatype CookieOptions = CookieOptions(httpOnly: bool, secure: bool, sameSite: string,
                                         maxAge: Option<nat>, path: string)

  /** A cookie instruction attached to a response. */
  datatype CookieOp =
    | SetCookie(name: string, value: string, options: CookieOptions)
    | ClearCookie(name: string, options: CookieOptions)

  /**
   * The attribute set of the session cookie when it is set: out of reach of
   * page scripts, same-site strict, sent for every path, secure only in
   * production, and alive exactly as long as the token's `expiresIn` says.
   */
  function SessionOptions(cfg: Config): (o: CookieOptions)
    ensures o.httpOnly && o.sameSite == "strict" && o.path == "/"
    ensures o.secure <==> cfg.nodeEnv == "production"
    ensures o.maxAge == DurationMs(TokenExpiresIn)
  {
    LifetimesAgree();
    CookieOptions(true, Secure(cfg), "strict", Some(CookieMaxAgeMs), "/")
  }

  /** `res.cookie("authToken", token, ...)` as signup and login issue it: it carries the token unchanged. */
  function SessionCookie(cfg: Config, token: string): (c: CookieOp)
    ensures c.SetCookie? && c.name == CookieName && c.value == token
    ensures c.options.maxAge == DurationMs(TokenExpiresIn)
  {
    SetCookie(CookieName, token, SessionOptions(cfg))
  }

  /**
   * A clear instruction removes a cookie a browser holds when it names the
   * same cookie with the same scoping and security attributes.
   */
  predicate Clears(clear: CookieOp, issued: CookieOp) {
    && clear.ClearCookie? && issued.SetCookie?
    && clear.name == issued.name
    && clear.options.path == issued.options.path
    && clear.options.httpOnly == issued.options.httpOnly
    && clear.options.secure == issued.options.secure
    && clear.options.sameSite == issued.options.sameSite
  }

  /**
   * `res.clearCookie("authToken", ...)` as logout issues it: it matches
   * every session cookie issued under the same configuration.
   */
  function ClearSessionCookie(cfg: Config): (c: CookieOp)
    ensures forall token :: Clears(c, SessionCookie(cfg, token))
  {
    ClearCookie(CookieName, CookieOptions(true, Secure(cfg), "strict", None, "/"))
  }

  /**
   * The `exp` claim, in seconds, of a token signed at clock reading `nowMs`:
   * `iat` plus the `expiresIn` duration, as jsonwebtoken computes it.
   */
  function TokenExpiry(nowMs: nat): Option<nat> {
    match DurationMs(TokenExpiresIn)
    case None => None
    case Some(d) => Some(IssuedAt(nowMs) + d / 1000)
  }

  /**
   * The cookie's expiry, in whole seconds, when set at clock reading
   * `nowMs`: Express sends `Expires` as `nowMs + maxAge`, and HTTP dates
   * drop the milliseconds.
   */
  function CookieExpiry(nowMs: nat, options: CookieOptions): Option<nat> {
    match options.maxAge
    case None => None
    case Some(age) => Some((nowMs + age) / 1000)
  }

  // ---------------------------------------------------------------------
  // The `ms` notation jsonwebtoken uses to read `expiresIn`: a decimal
  // number immediately followed by a unit.

  predicate IsDigit(c: char) {
    '0' <= c <= '9'
  }

  /** The length of the longest prefix of decimal digits. */
  function DigitPrefix(s: string): (n: nat)
    ensures n <= |s|
    ensures forall k :: 0 <= k < n ==> IsDigit(s[k])
    ensures n < |s| ==> !IsDigit(s[n])
  {
    if |s| == 0 || !IsDigit(s[0]) then 0 else 1 + DigitPrefix(s[1..])
  }

  /** The value of a string of decimal digits, most significant first. */
  function DecimalValue(digits: string): nat
    requires forall k :: 0 <= k < |digits| ==> IsDigit(digits[k])
  {
    if |digits| == 0 then 0
    else 10 * DecimalValue(digits[..|digits| - 1]) + DigitValue(digits[|digits| - 1])
  }

  function DigitValue(c: char): nat
    requires IsDigit(c)
  {
    c as int - '0' as int
  }

  /** Milliseconds per unit for the units of the `ms` notation this model reads. */
  function UnitMs(unit: string): Option<nat> {
    if unit == "ms" then Some(1)
    else if unit == "s" then Some(1000)
    else if unit == "m" then Some(60 * 1000)
    else if unit == "h" then Some(60 * 60 * 1000)
    else if unit == "d" then Some(24 * 60 * 60 * 1000)
    else if unit == "w" then Some(7 * 24 * 60 * 60 * 1000)
    else None
  }

  /** The duration an `expiresIn` string denotes, in milliseconds; None when it is not `<digits><unit>`. */
  function DurationMs(s: string): (r: Option<nat>)
    ensures r.Some? ==> 0 < DigitPrefix(s) < |s|
  {
    var n := DigitPrefix(s);
    if n == 0 then None
    else match UnitMs(s[n..])
      case None => None
      case Some(unit) => Some(DecimalValue(s[..n]) * unit)
  }

  /**
   * The token and its cookie expire together: `"7d"` denotes the cookie's
   * `maxAge` of 604800000 ms, i.e. the token's `exp - iat` of 604800 seconds
   * equals the cookie's Max-Age.
   */
  lemma LifetimesAgree()
    ensures DurationMs(TokenExpiresIn) == Some(CookieMaxAgeMs)
    ensures CookieMaxAgeMs == 604800000 && CookieMaxAgeMs % 1000 == 0
  {
    assert DigitPrefix(TokenExpiresIn[1..]) == 0;
    assert TokenExpiresIn[..1] == "7";
    assert TokenExpiresIn[1..] == "d";
  }

  /**
   * A token and the cookie that carries it, both made from the same clock
   * reading, expire at the same second.
   */
  lemma ExpireTogether(cfg: Config, nowMs: nat)
    ensures TokenExpiry(nowMs).Some?
    ensures TokenExpiry(nowMs) == CookieExpiry(nowMs, SessionOptions(cfg))
  {
    LifetimesAgree();
    assert IssuedAt(nowMs) + CookieMaxAgeMs / 1000 == (nowMs + CookieMaxAgeMs) / 1000;
  }
}
