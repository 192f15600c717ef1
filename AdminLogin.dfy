/**
 * The admin login page: `handleLogin` turns the typed username and password
 * into a Basic token, keeps it in `sessionStorage`, and checks it by
 * requesting the subscriber listing with it.
 */
module AdminLogin {
  import opened Optional
  import opened Strings
  import Base64
  import Auth
  import Browser
  import Subscriptions

  const SubscribersPath: string := "/admin/subscribers"
  const SuccessToast: string := "Login successful"
  const FailureToast: string := "Login failed"
  const ErrorToast: string := "Error"

  /** `btoa(`${username}:${password}`)`; `None` when `btoa` throws. */
  function CredentialsToken(username: string, password: string): (r: Option<string>)
    ensures r.Some? <==> Base64.IsLatin1(username) && Base64.IsLatin1(password)
    ensures r.Some? ==> r.value != "" && forall k :: 0 <= k < |r.value| ==> r.value[k] != ' '
  {
    var userPass := username + ":" + password;
    Base64.Latin1Append(username, ":");
    Base64.Latin1Append(username + ":", password);
    Base64.Btoa(userPass)
  }

  /** The request header `Basic ${credentials}`. */
  function AuthorizationHeader(token: string): string {
    Auth.Prefix + token
  }

  /** The header the page sends always passes the server's `Basic ` test. */
  lemma HeaderHasBasicPrefix(token: string)
    ensures Auth.HasBasicPrefix(Some(AuthorizationHeader(token)))
  {
    assert AuthorizationHeader(token)[..|Auth.Prefix|] == Auth.Prefix;
  }

  /** The server extracts from the header exactly the token the page stored. */
  lemma TokenOfHeader(token: string)
    requires forall k :: 0 <= k < |token| ==> token[k] != ' '
    ensures Auth.Token(AuthorizationHeader(token)) == token
  {
    Auth.TokenIsSecondField(token);
    SplitNoSeparator(token, ' ');
  }

  /** What the server decodes from the login request's header: the text `btoa` was given. */
  lemma DecodedLoginText(username: string, password: string)
    requires Base64.IsAscii(username) && Base64.IsAscii(password)
    ensures CredentialsToken(username, password).Some?
    ensures var header := AuthorizationHeader(CredentialsToken(username, password).value);
      Auth.HasBasicPrefix(Some(header))
      && Base64.AsciiString(Base64.NodeDecode(Auth.Token(header))) == username + ":" + password
  {
    var token := CredentialsToken(username, password).value;
    HeaderHasBasicPrefix(token);
    TokenOfHeader(token);
    Base64.AsciiRoundTrip(username + ":" + password);
  }

  /** For ASCII input without colons the server recovers the typed username and password. */
  lemma LoginRoundTrip(username: string, password: string)
    requires Base64.IsAscii(username) && Base64.IsAscii(password)
    requires ':' !in username && ':' !in password
    ensures CredentialsToken(username, password).Some?
    ensures var header := AuthorizationHeader(CredentialsToken(username, password).value);
      Auth.DecodeCredentials(Auth.Token(header)) == Auth.Credentials(username, Some(password))
  {
    DecodedLoginText(username, password);
    SplitPair(username, ':', password);
  }

  /**
   * A typed password with a colon reaches the server cut at that colon, so
   * `p:anything` logs in wherever `p` does (section 2 of RFC 7617 would keep it whole).
   */
  lemma ColonPasswordTruncated(username: string, password: string, rest: string)
    requires Base64.IsAscii(username) && Base64.IsAscii(password) && Base64.IsAscii(rest)
    requires ':' !in username && ':' !in password
    ensures CredentialsToken(username, password + ":" + rest).Some?
    ensures var header := AuthorizationHeader(CredentialsToken(username, password + ":" + rest).value);
      Auth.DecodeCredentials(Auth.Token(header)) == Auth.Credentials(username, Some(password))
  {
    Base64.Latin1Append(password, ":");
    Base64.Latin1Append(password + ":", rest);
    DecodedLoginText(username, password + ":" + rest);
    assert username + ":" + (password + ":" + rest) == username + [':'] + (password + [':'] + rest);
    SplitAtFirst(username, ':', password + [':'] + rest);
    SplitAtFirst(password, ':', rest);
  }

  /** What `fetch` settles to: a response and its `ok`, or a rejection. */
  datatype FetchResult = Responded(ok: bool) | NetworkError

  /** The modelled server's answer to `GET /api/subscribers` with this header. */
  function ServerResponse(subs: seq<Subscriptions.Subscriber>, env: Auth.Env, storageFails: bool, authorization: string): FetchResult {
    Responded(Subscriptions.ListSubscribers(subs, Some(authorization), env, storageFails).Status() == 200)
  }

  /** Against the modelled server, a login succeeds exactly with the configured pair (ASCII, no colons). */
  lemma LoginAcceptedIff(username: string, password: string, subs: seq<Subscriptions.Subscriber>, env: Auth.Env, storageFails: bool)
    requires Base64.IsAscii(username) && Base64.IsAscii(password)
    requires ':' !in username && ':' !in password
    ensures CredentialsToken(username, password).Some?
    ensures ServerResponse(subs, env, storageFails, AuthorizationHeader(CredentialsToken(username, password).value)) == Responded(true)
      <==> username == Auth.ExpectedUsername(env) && password == Auth.ExpectedPassword(env) && !storageFails
  {
    LoginRoundTrip(username, password);
    HeaderHasBasicPrefix(CredentialsToken(username, password).value);
  }

  /** The login form's component state, over the browser session it writes. */
  class AdminLoginPage {
    const session: Browser.Session
    var isLoading: bool
    /** Title of the last toast shown. */
    var toast: Option<string>

    constructor (session: Browser.Session)
      ensures this.session == session && !isLoading && toast == None
    {
      this.session := session;
      isLoading := false;
      toast := None;
    }

    /**
     * `handleLogin` up to the `await fetch`: loading starts, the token is stored,
     * and the request header is returned. When `btoa` throws, the `catch` and
     * `finally` blocks run at once and no request is made.
     */
    method SubmitLogin(username: string, password: string) returns (authorization: Option<string>)
      modifies this, session
      ensures session.location == old(session.location)
      ensures var token := CredentialsToken(username, password);
        if token.Some? then
          authorization == Some(AuthorizationHeader(token.value)) && isLoading && toast == old(toast)
          && session.storage == old(session.storage)[Browser.AuthKey := token.value]
        else
          authorization == None && !isLoading && toast == Some(ErrorToast)
          && session.storage == old(session.storage) - {Browser.AuthKey}
    {
      isLoading := true;
      var token := CredentialsToken(username, password);
      if token.None? {
        session.RemoveItem(Browser.AuthKey);
        toast := Some(ErrorToast);
        isLoading := false;
        return None;
      }
      session.SetItem(Browser.AuthKey, token.value);
      authorization := Some(AuthorizationHeader(token.value));
    }

    /** `handleLogin` after the `await`: navigate on `ok`, otherwise drop the token; loading ends either way. */
    method ReceiveLoginResponse(response: FetchResult)
      modifies this, session
      ensures !isLoading
      ensures response == Responded(true) ==>
        session.storage == old(session.storage) && session.location == SubscribersPath && toast == Some(SuccessToast)
      ensures response != Responded(true) ==>
        session.storage == old(session.storage) - {Browser.AuthKey} && session.location == old(session.location)
      ensures response == Responded(false) ==> toast == Some(FailureToast)
      ensures response == NetworkError ==> toast == Some(ErrorToast)
    {
      if response.Responded? {
        if response.ok {
          toast := Some(SuccessToast);
          session.SetLocation(SubscribersPath);
        } else {
          session.RemoveItem(Browser.AuthKey);
          toast := Some(FailureToast);
        }
      } else {
        session.RemoveItem(Browser.AuthKey);
        toast := Some(ErrorToast);
      }
      isLoading := false;
    }

    /**
     * The whole `handleLogin`, with `fetch` given as the response to each header.
     * Afterwards `adminAuth` is stored only if the response was ok, and loading is over.
     */
    method HandleLogin(username: string, password: string, fetch: string -> FetchResult)
      modifies this, session
      ensures !isLoading
      ensures var token := CredentialsToken(username, password);
        var accepted := token.Some? && fetch(AuthorizationHeader(token.value)) == Responded(true);
        session.storage == (if accepted then old(session.storage)[Browser.AuthKey := token.value]
                            else old(session.storage) - {Browser.AuthKey})
        && session.location == (if accepted then SubscribersPath else old(session.location))
        && (accepted ==> session.HasAdminAuth())
    {
      var authorization := SubmitLogin(username, password);
      if authorization.Some? {
        ReceiveLoginResponse(fetch(authorization.value));
      }
    }
  }
}
