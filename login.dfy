/** The login page (src/pages/login.tsx): two text fields, a submit handler that sends them
    through the authenticated client, and the success handler that opens the session. The page
    has no error handler of its own: a failed login is whatever the client's interceptors make
    of it. */
module Login {
  import opened Wrappers
  import opened Session
  import Api

  const LoginEndpoint := "/authentication/login"
  const DashboardPath := "/dashboard"

  datatype LoginRequest = LoginRequest(email: string, password: string)
  datatype UserType = Entrepreneur | Investor
  datatype LoginResponse = LoginResponse(token: string, refreshToken: string, userType: UserType)

  class LoginPage {
    var email: string
    var password: string

    constructor ()
      ensures email == "" && password == ""
    {
      email, password := "", "";
    }

    method SetEmail(value: string)
      modifies this
      ensures email == value && password == old(password)
    {
      email := value;
    }

    method SetPassword(value: string)
      modifies this
      ensures password == value && email == old(email)
    {
      password := value;
    }

    /** `handleSubmit`: the request is exactly the current field state. */
    method HandleSubmit() returns (request: LoginRequest)
      ensures request.email == email && request.password == password
    {
      request := LoginRequest(email, password);
    }
  }

  /** The session after a successful login. */
  function SessionAfterLogin(storage: map<string, string>, data: LoginResponse): map<string, string>
  {
    storage[AccessTokenKey := data.token][RefreshTokenKey := data.refreshToken]
  }

  /** `onSuccess`: store the access token, then the refresh token, then go to the dashboard. */
  method OnSuccess(b: Browser, data: LoginResponse)
    modifies b
    ensures b.storage == SessionAfterLogin(old(b.storage), data)
    ensures b.location == DashboardPath
    ensures b.trace == old(b.trace) + [StoreItem(AccessTokenKey, data.token),
                                       StoreItem(RefreshTokenKey, data.refreshToken),
                                       PushRoute(DashboardPath)]
  {
    b.SetItem(AccessTokenKey, data.token);
    b.SetItem(RefreshTokenKey, data.refreshToken);
    b.RouterPush(DashboardPath);
  }

  /** `authApi.login`: `POST /authentication/login` with the request as its body, through the
      client. `encode` is the JSON serialisation the HTTP library applies to the body. */
  function LoginConfig(request: LoginRequest, encode: LoginRequest -> string): Api.Config
  {
    Api.Config("post", LoginEndpoint, map[], encode(request))
  }

  /** Submitting the form: the login call goes through the client (`Api.Send`), including its
      response interceptor; on an answer the session is opened, and on a failure the tab is
      left as the interceptor left it. `decode` reads the answer's JSON body. */
  method Submit(page: LoginPage, b: Browser, encode: LoginRequest -> string,
                decode: Api.Response -> LoginResponse,
                replies: seq<Api.Reply>, refreshReplies: seq<Api.RefreshReply>)
    returns (request: LoginRequest, outcome: Api.Outcome, sent: seq<Api.Config>)
    modifies b
    ensures request == LoginRequest(page.email, page.password)
    ensures var x := Api.Run(old(b.storage), old(b.location), LoginConfig(request, encode),
                             replies, refreshReplies);
      && outcome == x.outcome && sent == x.sent
      && (x.outcome.Resolved? ==>
            var data := decode(x.outcome.response);
            && b.storage == SessionAfterLogin(x.storage, data)
            && b.location == DashboardPath
            && b.trace == old(b.trace) + x.effects
                          + [StoreItem(AccessTokenKey, data.token),
                             StoreItem(RefreshTokenKey, data.refreshToken),
                             PushRoute(DashboardPath)])
      && (!x.outcome.Resolved? ==>
            b.storage == x.storage && b.location == x.location && b.trace == old(b.trace) + x.effects)
  {
    request := page.HandleSubmit();
    var refreshes;
    outcome, sent, refreshes := Api.Send(b, LoginConfig(request, encode), replies, refreshReplies);
    if outcome.Resolved? {
      OnSuccess(b, decode(outcome.response));
    }
  }

  /** A failed login goes through the response interceptor like any other call: a 401 whose
      refresh fails clears the session and sends the tab to the login page, and that is the
      only way it does; any other failure keeps the location and every key but the access
      token. */
  lemma FailedLoginSession(storage: map<string, string>, location: string, request: LoginRequest,
                           encode: LoginRequest -> string, replies: seq<Api.Reply>,
                           refreshReplies: seq<Api.RefreshReply>)
    ensures var x := Api.Run(storage, location, LoginConfig(request, encode), replies, refreshReplies);
      && (x.outcome.Rejected? && x.outcome.failure.RefreshError? ==>
            x.storage == map[] && x.location == LoginPath && ClearItems in x.effects)
      && (!(x.outcome.Rejected? && x.outcome.failure.RefreshError?) ==>
            && ClearItems !in x.effects && x.location == location
            && forall k :: k != AccessTokenKey ==> GetItem(x.storage, k) == GetItem(storage, k))
  {
    Api.SessionAfterCall(storage, location, LoginConfig(request, encode), replies, refreshReplies);
  }

  /** For instance, a login answered with 401 while the stored refresh token is refused ends
      on the login page with an empty session, rejected with the refresh error. */
  lemma UnauthorizedLoginClearsSession(storage: map<string, string>, location: string,
                                       request: LoginRequest, encode: LoginRequest -> string,
                                       message: string, reason: string)
    ensures var x := Api.Run(storage, location, LoginConfig(request, encode),
                             [Api.Errored(Api.Rejection(Some(Api.Unauthorized), true, message))],
                             [Api.RefreshFailed(reason)]);
      && x.outcome == Api.Rejected(Api.RefreshError(reason))
      && x.storage == map[] && x.location == LoginPath
      && x.effects == [ClearItems, SetHref(LoginPath)]
  {
  }

  /** A login writes the two tokens and no other key: in particular the user type and the
      email that other pages read are not stored, though the response carries the type. */
  lemma LoginStoresTokensOnly(storage: map<string, string>, data: LoginResponse)
    ensures var s := SessionAfterLogin(storage, data);
      && GetItem(s, AccessTokenKey) == Some(data.token)
      && GetItem(s, RefreshTokenKey) == Some(data.refreshToken)
      && (forall k :: k != AccessTokenKey && k != RefreshTokenKey ==> GetItem(s, k) == GetItem(storage, k))
      && s.Keys == storage.Keys + {AccessTokenKey, RefreshTokenKey}
  {
  }

  /** After a login with a non-empty token, every request leaves with `Bearer <token>`. */
  lemma RequestsAfterLoginCarryToken(storage: map<string, string>, data: LoginResponse, config: Api.Config)
    requires data.token != ""
    ensures var sent := Api.AttachToken(SessionAfterLogin(storage, data), config);
      Api.Authorization in sent.headers && sent.headers[Api.Authorization] == Api.Bearer(data.token)
  {
    assert SessionAfterLogin(storage, data)[AccessTokenKey] == data.token;
  }
}
