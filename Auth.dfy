/**
 * The `requireAdminAuth` middleware in front of the subscriber listing: it
 * reads an HTTP Basic `Authorization` header, decodes the credentials and
 * either lets the request through (`next()`) or answers 401 with a
 * `WWW-Authenticate` challenge. Its result is a value: which of the two
 * happens, and what the 401 carries.
 */
module Auth {
  import opened Optional
  import opened Strings
  import Base64

  const Prefix: string := "Basic "
  const Challenge: string := "Basic realm=\"Admin Area\""
  const DefaultUsername: string := "admin"
  const DefaultPassword: string := "changeme123"
  const MissingMessage: string := "Authentication required"
  const InvalidMessage: string := "Invalid credentials"
  const InvalidHint: string := "Using default credentials: admin / changeme123"

  /** `ADMIN_USERNAME` and `ADMIN_PASSWORD` as the process sees them; `None` is unset. */
  datatype Env = Env(adminUsername: Option<string>, adminPassword: Option<string>)

  /** `process.env.X || fallback`: an unset or empty variable gives the fallback. */
  function EnvOr(value: Option<string>, fallback: string): string {
    if value.Some? && value.value != "" then value.value else fallback
  }

  function ExpectedUsername(env: Env): string {
    EnvOr(env.adminUsername, DefaultUsername)
  }

  function ExpectedPassword(env: Env): string {
    EnvOr(env.adminPassword, DefaultPassword)
  }

  /** What the middleware does: call `next()`, or answer 401 with a challenge and a JSON body. */
  datatype AuthDecision =
    | CallNext
    | Unauthorized(wwwAuthenticate: string, message: string, hint: Option<string>)
  {
    /** The status written; `next()` writes none. */
    function Status(): Option<nat> {
      if CallNext? then None else Some(401)
    }
  }

  /** The destructured `[username, password]`; `password` is `None` when it is `undefined`. */
  datatype Credentials = Credentials(username: string, password: Option<string>)

  /**
   * `credentials.split(':')` destructured into two names: the text before the
   * first colon, and the text between the first and the second colon.
   */
  function SplitCredentials(decoded: string): (c: Credentials)
    ensures ':' !in c.username
    ensures c.password.Some? ==> ':' !in c.password.value
    ensures c.password.None? <==> ':' !in decoded
  {
    var parts := Split(decoded, ':');
    Credentials(parts[0], if |parts| > 1 then Some(parts[1]) else None)
  }

  /**
   * The reading of section 2 of RFC 7617: the user-id ends at the first
   * colon and the password is everything after it.
   */
  function RfcCredentials(decoded: string): Credentials {
    if ':' in decoded then
      var i := IndexOf(decoded, ':');
      Credentials(decoded[..i], Some(decoded[i + 1..]))
    else Credentials(decoded, None)
  }

  /** The middleware reads the credentials as RFC 7617 does exactly when there is at most one colon. */
  lemma SplitCredentialsAgreesWithRfcIff(decoded: string)
    ensures SplitCredentials(decoded) == RfcCredentials(decoded) <==> Count(decoded, ':') <= 1
  {
    if ':' !in decoded {
      SplitNoSeparator(decoded, ':');
    } else {
      var i := IndexOf(decoded, ':');
      var user, rest := decoded[..i], decoded[i + 1..];
      assert decoded == user + [':'] + rest;
      SplitAtFirst(user, ':', rest);
      CountAppend(user + [':'], rest, ':');
      CountAppend(user, [':'], ':');
      if ':' in rest {
        assert ':' !in Split(rest, ':')[0];
      } else {
        SplitNoSeparator(rest, ':');
      }
    }
  }

  /** The middleware accepts `u`, `p` from exactly `u:p` and from `u:p:` followed by anything. */
  lemma {:induction false} SplitCredentialsIs(decoded: string, u: string, p: string)
    requires ':' !in u && ':' !in p
    ensures SplitCredentials(decoded) == Credentials(u, Some(p))
        <==> decoded == u + ":" + p || StartsWith(decoded, u + ":" + p + ":")
  {
    if SplitCredentials(decoded) == Credentials(u, Some(p)) {
      JoinSplit(decoded, ':');
    }
    if decoded == u + ":" + p {
      SplitPair(u, ':', p);
    } else if StartsWith(decoded, u + ":" + p + ":") {
      var more := decoded[|u + ":" + p + ":"|..];
      assert decoded == u + [':'] + (p + [':'] + more);
      SplitAtFirst(u, ':', p + [':'] + more);
      SplitAtFirst(p, ':', more);
    }
  }

  predicate HasBasicPrefix(authorization: Option<string>) {
    authorization.Some? && StartsWith(authorization.value, Prefix)
  }

  /** `authHeader.split(' ')[1]`. */
  function Token(header: string): string
    requires StartsWith(header, Prefix)
  {
    assert header[5] == ' ';
    Split(header, ' ')[1]
  }

  /** The token is the header's text after `Basic ` up to the next space. */
  lemma TokenIsSecondField(rest: string)
    ensures Token(Prefix + rest) == Split(rest, ' ')[0]
  {
    assert Prefix + rest == "Basic" + [' '] + rest;
    SplitAtFirst("Basic", ' ', rest);
  }

  /** `Buffer.from(token, 'base64').toString('ascii').split(':')`, destructured. */
  function DecodeCredentials(token: string): Credentials {
    SplitCredentials(Base64.AsciiString(Base64.NodeDecode(token)))
  }

  /** `requireAdminAuth` for a request whose `Authorization` header is `authorization`. */
  function RequireAdminAuth(authorization: Option<string>, env: Env): (d: AuthDecision)
    ensures d.Unauthorized? ==> d.wwwAuthenticate == Challenge && d.Status() == Some(401)
    ensures !HasBasicPrefix(authorization) ==> d == Unauthorized(Challenge, MissingMessage, None)
    ensures HasBasicPrefix(authorization) && d.Unauthorized? ==>
      d == Unauthorized(Challenge, InvalidMessage, Some(InvalidHint))
  {
    // An empty header is falsy, and it fails the prefix test as well.
    if !HasBasicPrefix(authorization) then Unauthorized(Challenge, MissingMessage, None)
    else
      var c := DecodeCredentials(Token(authorization.value));
      if c.username == ExpectedUsername(env) && c.password == Some(ExpectedPassword(env)) then CallNext
      else Unauthorized(Challenge, InvalidMessage, Some(InvalidHint))
  }

  /** `next()` is called exactly when the decoded text is `user:password`, possibly followed by `:` and more. */
  lemma AcceptsIff(authorization: Option<string>, env: Env)
    requires ':' !in ExpectedUsername(env) && ':' !in ExpectedPassword(env)
    ensures RequireAdminAuth(authorization, env).CallNext? <==>
      HasBasicPrefix(authorization) &&
      var decoded := Base64.AsciiString(Base64.NodeDecode(Token(authorization.value)));
      var expected := ExpectedUsername(env) + ":" + ExpectedPassword(env);
      decoded == expected || StartsWith(decoded, expected + ":")
  {
    if HasBasicPrefix(authorization) {
      var decoded := Base64.AsciiString(Base64.NodeDecode(Token(authorization.value)));
      SplitCredentialsIs(decoded, ExpectedUsername(env), ExpectedPassword(env));
    }
  }

  /** A decoded text without a colon leaves `password` undefined, which never matches. */
  lemma NoColonRejected(authorization: Option<string>, env: Env)
    requires HasBasicPrefix(authorization)
    requires ':' !in Base64.AsciiString(Base64.NodeDecode(Token(authorization.value)))
    ensures RequireAdminAuth(authorization, env) == Unauthorized(Challenge, InvalidMessage, Some(InvalidHint))
  {
  }

  /** A configured username or password that holds a colon can never be matched: no request gets through. */
  lemma ColonCredentialLocksOut(authorization: Option<string>, env: Env)
    requires ':' in ExpectedUsername(env) || ':' in ExpectedPassword(env)
    ensures RequireAdminAuth(authorization, env).Unauthorized?
  {
  }

  /** With both variables unset the expected pair is `admin` / `changeme123`; an empty variable counts as unset. */
  lemma DefaultCredentials(username: string, password: string)
    ensures ExpectedUsername(Env(None, None)) == "admin" && ExpectedPassword(Env(None, None)) == "changeme123"
    ensures ExpectedUsername(Env(Some(""), Some(""))) == "admin" && ExpectedPassword(Env(Some(""), Some(""))) == "changeme123"
    ensures username != "" ==> ExpectedUsername(Env(Some(username), None)) == username
    ensures password != "" ==> ExpectedPassword(Env(None, Some(password))) == password
  {
  }
}
