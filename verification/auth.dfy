/** The authentication operations: registration, password login, logout and
    the identity-provider sign-in, with their effect on the token cookies.
    Each network outcome is a parameter. */
module Auth {
  import opened Wrappers
  import opened Cookies
  import opened FormData
  import Strings
  import DateUtils
  import ApiClient

  /** The access-token lifetime these operations store, in the lifetime
      notation the parser reads. */
  const AccessLifetime := "10m"

  const RegisterFailureMessage := "Something went wrong. Please try again."
  const NoRefreshTokenMessage := "No refresh token found"
  const NoCredentialMessage := "No credential found in Google response"

  /** The JSON body the sign-in endpoints answer with: the two tokens, and the
      user record, carried along unread. */
  datatype AuthBody = AuthBody(accessToken: string, refreshToken: string, user: string)

  /** An exception. */
  datatype Error = NetworkError | MalformedJson | HttpError(status: int) | Message(text: string)

  /** What `fetch` followed by `response.json()` does: the fetch fails, or it
      answers with an `ok` flag and a body that parses as JSON or does not. */
  datatype FetchOutcome = FetchRejected | Answered(ok: bool, body: Option<AuthBody>)

  /** What a post through the plain client does. */
  datatype PostOutcome = Posted(body: AuthBody) | PostRejected(error: Error)

  /** An async function either returns a value or throws. */
  datatype Result<T> = Returned(value: T) | Thrown(error: Error)

  /** The request a sign-in operation sends: the registration form, the login
      credentials, or the identity-provider credential. */
  datatype Request = RegisterPost(form: Form) | LoginPost(login: LoginData) | GooglePost(credential: string)

  /** The cookies after the call, the request made if any, and the result. */
  datatype Effect<T> = Effect(jar: Jar, sent: Option<Request>, result: Result<T>)

  /** The token write all sign-in paths share. */
  function StoreBody(jar: Jar, body: AuthBody): Jar {
    StoreTokens(jar, body.accessToken, body.refreshToken, DateUtils.ParseExpirationInDays(AccessLifetime))
  }

  // ---------------------------------------------------------------------
  // registerUser

  datatype RegisterData = RegisterData(username: string, email: string, password: Option<string>, skillLevel: string)

  /** What `registerUser` resolves to: `{success, data}` or `{success, error}`. */
  datatype RegisterReply = RegisterReply(success: bool, data: Option<AuthBody>, error: Option<string>)

  /** The field names a registration form may carry. */
  const RegisterFieldNames := {"username", "email", "password", "skillLevel", "profile_img"}

  /** The multipart body of the registration request. */
  function RegisterForm(data: RegisterData, file: Option<File>): (form: Form)
    ensures forall k :: 0 <= k < |form| ==> form[k].name in RegisterFieldNames
  {
    [Field("username", Text(data.username)), Field("email", Text(data.email))]
    + (if Truthy(data.password) then [Field("password", Text(data.password.value))] else [])
    + [Field("skillLevel", Text(data.skillLevel))]
    + (if file.Some? then [Field("profile_img", Upload(file.value))] else [])
  }

  /** The registration form always carries the username, the email and the
      skill level, each once; the password once if it is non-empty, else not
      at all; the picture once if a file is given, else not at all; and
      nothing else. */
  lemma RegisterFormFields(data: RegisterData, file: Option<File>, other: string)
    requires other !in RegisterFieldNames
    ensures var form := RegisterForm(data, file);
            && Values(form, "username") == [Text(data.username)]
            && Values(form, "email") == [Text(data.email)]
            && Values(form, "skillLevel") == [Text(data.skillLevel)]
            && Values(form, "password") == (if Truthy(data.password) then [Text(data.password.value)] else [])
            && Values(form, "profile_img") == (if file.Some? then [Upload(file.value)] else [])
            && Values(form, other) == []
  {
    RegisterValues(data, file, "username");
    RegisterValues(data, file, "email");
    RegisterValues(data, file, "skillLevel");
    RegisterValues(data, file, "password");
    RegisterValues(data, file, "profile_img");
    ValuesOutside(RegisterForm(data, file), RegisterFieldNames, other);
  }

  /** The values of the registration form under one name, part by part. */
  lemma RegisterValues(data: RegisterData, file: Option<File>, name: string)
    ensures Values(RegisterForm(data, file), name)
            == Values([Field("username", Text(data.username))], name)
            + Values([Field("email", Text(data.email))], name)
            + (if Truthy(data.password) then Values([Field("password", Text(data.password.value))], name) else [])
            + Values([Field("skillLevel", Text(data.skillLevel))], name)
            + (if file.Some? then Values([Field("profile_img", Upload(file.value))], name) else [])
  {
    var user := [Field("username", Text(data.username))];
    var email := [Field("email", Text(data.email))];
    var password: Form := if Truthy(data.password) then [Field("password", Text(data.password.value))] else [];
    var level := [Field("skillLevel", Text(data.skillLevel))];
    var image: Form := if file.Some? then [Field("profile_img", Upload(file.value))] else [];
    assert RegisterForm(data, file) == user + email + password + level + image;
    ValuesAppend(user + email + password + level, image, name);
    ValuesAppend(user + email + password, level, name);
    ValuesAppend(user + email, password, name);
    ValuesAppend(user, email, name);
  }

  /** `registerUser`: posts the form, stores whatever tokens the JSON body
      holds, and reports `response.ok`; any failure becomes a fixed message.
      It never throws, and a failure leaves the cookies alone. */
  function RegisterUser(jar: Jar, data: RegisterData, file: Option<File>, outcome: FetchOutcome): (e: Effect<RegisterReply>)
    ensures e.sent == Some(RegisterPost(RegisterForm(data, file))) && e.result.Returned?
    ensures e.result.value.success ==> outcome.Answered? && outcome.ok
    ensures e.result.value.error.Some? <==> !(outcome.Answered? && outcome.body.Some?)
    ensures e.result.value.error.Some? ==> e.jar == jar && !e.result.value.success
  {
    match outcome
    case Answered(ok, Some(body)) =>
      Effect(StoreBody(jar, body), Some(RegisterPost(RegisterForm(data, file))), Returned(RegisterReply(ok, Some(body), None)))
    case _ =>
      Effect(jar, Some(RegisterPost(RegisterForm(data, file))), Returned(RegisterReply(false, None, Some(RegisterFailureMessage))))
  }

  /** A parsed body is stored whatever the HTTP status: the access token for
      ten minutes, the refresh token as a session cookie; `success` is the
      status's `ok`. */
  lemma RegisterStoresWhateverStatus(jar: Jar, data: RegisterData, file: Option<File>, ok: bool, body: AuthBody)
    ensures var e := RegisterUser(jar, data, file, Answered(ok, Some(body)));
            && Get(e.jar, AccessToken) == Some(body.accessToken)
            && e.jar[AccessToken].expires == Some(1.0 / 144.0)
            && Get(e.jar, RefreshToken) == Some(body.refreshToken)
            && e.jar[RefreshToken].expires == None
            && e.result.value == RegisterReply(ok, Some(body), None)
  {
    DateUtils.TenMinutes();
  }

  /** A failed fetch or an unreadable body is reported, not thrown. */
  lemma RegisterFailureReported(jar: Jar, data: RegisterData, file: Option<File>, outcome: FetchOutcome)
    requires !(outcome.Answered? && outcome.body.Some?)
    ensures RegisterUser(jar, data, file, outcome) == Effect(jar, Some(RegisterPost(RegisterForm(data, file))), Returned(RegisterReply(false, None, Some(RegisterFailureMessage))))
  {
  }

  // ---------------------------------------------------------------------
  // userLogin

  datatype LoginData = LoginData(email: string, password: string)

  /** `userLogin`: posts the credentials through the plain client; the tokens
      are stored and the body returned only once the post has succeeded. */
  function UserLogin(jar: Jar, login: LoginData, outcome: PostOutcome): (e: Effect<AuthBody>)
    ensures e.sent == Some(LoginPost(login))
    ensures e.result.Returned? <==> outcome.Posted?
    ensures e.result.Thrown? ==> e.jar == jar && e.result.error == outcome.error
    ensures e.result.Returned? ==> e.result.value == outcome.body && e.jar == StoreBody(jar, outcome.body)
  {
    match outcome
    case Posted(body) => Effect(StoreBody(jar, body), Some(LoginPost(login)), Returned(body))
    case PostRejected(error) => Effect(jar, Some(LoginPost(login)), Thrown(error))
  }

  /** After a login the session holds the returned tokens. */
  lemma LoginStoresTokens(jar: Jar, login: LoginData, body: AuthBody)
    ensures var e := UserLogin(jar, login, Posted(body));
            Get(e.jar, AccessToken) == Some(body.accessToken) && Get(e.jar, RefreshToken) == Some(body.refreshToken)
            && e.jar[AccessToken].expires == Some(1.0 / 144.0)
  {
    DateUtils.TenMinutes();
  }

  // ---------------------------------------------------------------------
  // userLogout

  /** The logout request: a post of the refresh token to the logout endpoint
      through the intercepted instance. */
  function LogoutRequest(token: string): ApiClient.Config {
    ApiClient.Config("/auth/logout", map[], token, false)
  }

  /** The effect of a logout. Unlike the other operations, whose single
      request goes out through the plain client or `fetch`, the logout post
      runs through the intercepted instance and may cause a refresh call and
      a resend, so the effect records every call made rather than a flag. */
  datatype LogoutEffect = LogoutEffect(jar: Jar, calls: seq<ApiClient.Call>, result: Result<()>)

  /** `userLogout`. Without a refresh token it throws before any request.
      Otherwise the post runs through the whole pipeline (its three network
      outcomes are parameters); the cookies are removed only if the post
      resolves, and a rejection is rethrown with the cookies as the pipeline
      left them. */
  function UserLogout(jar: Jar, first: ApiClient.Reply, refresh: ApiClient.RefreshReply, resend: ApiClient.Reply, lifetime: string): (e: LogoutEffect)
    ensures e.result.Returned? ==> Get(e.jar, AccessToken).None? && Get(e.jar, RefreshToken).None?
    ensures !Truthy(Get(jar, RefreshToken)) <==> e.calls == []
  {
    var token := Get(jar, RefreshToken);
    if Truthy(token) then
      var m := ApiClient.Pipeline(jar, LogoutRequest(token.value), first, refresh, resend, lifetime);
      match m.phase.result
      case Resolved(_) => LogoutEffect(ClearTokens(m.jar), m.calls, Returned(()))
      case Rejected(status) => LogoutEffect(m.jar, m.calls, Thrown(HttpError(status)))
    else LogoutEffect(jar, [], Thrown(Message(NoRefreshTokenMessage)))
  }

  /** The logout URL is exempt from the bearer token. */
  lemma LogoutHasNoBearer(jar: Jar, token: string)
    ensures ApiClient.AttachBearer(jar, LogoutRequest(token)) == LogoutRequest(token)
  {
    assert Strings.OccursAt("/auth/logout", ApiClient.LogoutPath, 1);
    Strings.IncludesIff("/auth/logout", ApiClient.LogoutPath);
  }

  /** Without a refresh token: no request, cookies unchanged, and the
      "No refresh token found" error. */
  lemma LogoutWithoutToken(jar: Jar, first: ApiClient.Reply, refresh: ApiClient.RefreshReply, resend: ApiClient.Reply, lifetime: string)
    requires !Truthy(Get(jar, RefreshToken))
    ensures UserLogout(jar, first, refresh, resend, lifetime) == LogoutEffect(jar, [], Thrown(Message(NoRefreshTokenMessage)))
  {
  }

  /** With a refresh token and a successful post: the token is posted, with
      no bearer header, and both cookies are removed. */
  lemma LogoutSuccessClears(jar: Jar, response: ApiClient.Response, refresh: ApiClient.RefreshReply, resend: ApiClient.Reply, lifetime: string)
    requires Truthy(Get(jar, RefreshToken))
    ensures var e := UserLogout(jar, ApiClient.Resolved(response), refresh, resend, lifetime);
            && e.jar == ClearTokens(jar)
            && e.calls == [ApiClient.Send(LogoutRequest(jar[RefreshToken].value))]
            && ApiClient.AuthorizationHeader !in e.calls[0].config.headers
            && e.calls[0].config.data == jar[RefreshToken].value
            && e.result == Returned(())
  {
    LogoutHasNoBearer(jar, jar[RefreshToken].value);
    ApiClient.SuccessPassesThrough(jar, LogoutRequest(jar[RefreshToken].value), response, refresh, resend, lifetime);
  }

  /** A rejected logout post other than a first 401 is rethrown and the
      cookies stay. */
  lemma LogoutFailureKeepsCookies(jar: Jar, status: int, refresh: ApiClient.RefreshReply, resend: ApiClient.Reply, lifetime: string)
    requires Truthy(Get(jar, RefreshToken)) && status != ApiClient.Unauthorized
    ensures var e := UserLogout(jar, ApiClient.Rejected(status), refresh, resend, lifetime);
            e.jar == jar && e.result == Thrown(HttpError(status))
  {
    ApiClient.OtherErrorsPropagate(jar, LogoutRequest(jar[RefreshToken].value), status, refresh, resend, lifetime);
  }

  /** A logout post refused with 401 whose refresh also fails: the pipeline
      removes the cookies before the error is rethrown, so the user ends
      logged out even though the logout threw. */
  lemma LogoutUnauthorizedRefreshFails(jar: Jar, resend: ApiClient.Reply, lifetime: string)
    requires Truthy(Get(jar, RefreshToken))
    ensures var e := UserLogout(jar, ApiClient.Rejected(ApiClient.Unauthorized), ApiClient.RefreshFailed, resend, lifetime);
            e.jar == ClearTokens(jar) && e.result == Thrown(HttpError(ApiClient.Unauthorized))
  {
    ApiClient.RefreshFailureClears(jar, LogoutRequest(jar[RefreshToken].value), resend, lifetime);
  }

  /** A logout post refused with 401 whose refresh succeeds but whose resend
      is rejected: the refreshed tokens stay stored, and the resend's error is
      rethrown before the cookies would be removed. */
  lemma LogoutResendRejectedKeepsNewTokens(jar: Jar, access: string, refresh: string, status: int, lifetime: string)
    requires Truthy(Get(jar, RefreshToken))
    ensures var e := UserLogout(jar, ApiClient.Rejected(ApiClient.Unauthorized), ApiClient.Refreshed(access, refresh), ApiClient.Rejected(status), lifetime);
            && e.jar == StoreTokens(jar, access, refresh, DateUtils.ParseExpirationInDays(lifetime))
            && Get(e.jar, AccessToken) == Some(access)
            && e.result == Thrown(HttpError(status))
  {
    ApiClient.RefreshSuccessResends(jar, LogoutRequest(jar[RefreshToken].value), access, refresh, ApiClient.Rejected(status), lifetime);
  }

  // ---------------------------------------------------------------------
  // googleSignin

  /** `googleSignin`: a missing or empty credential throws before anything
      happens; otherwise the credential is exchanged, and a JSON body is
      stored and returned whatever the HTTP status; a failed fetch or an
      unreadable body is rethrown with the cookies untouched. */
  function GoogleSignin(jar: Jar, credential: Option<string>, outcome: FetchOutcome): (e: Effect<AuthBody>)
    ensures e.sent.Some? <==> Truthy(credential)
    ensures e.sent.Some? ==> e.sent.value == GooglePost(credential.value)
    ensures e.result.Thrown? <==> !Truthy(credential) || !(outcome.Answered? && outcome.body.Some?)
    ensures e.result.Thrown? ==> e.jar == jar
    ensures e.result.Returned? ==> e.result.value == outcome.body.value && e.jar == StoreBody(jar, outcome.body.value)
  {
    if !Truthy(credential) then Effect(jar, None, Thrown(Message(NoCredentialMessage)))
    else
      var sent := Some(GooglePost(credential.value));
      match outcome
      case FetchRejected => Effect(jar, sent, Thrown(NetworkError))
      case Answered(_, None) => Effect(jar, sent, Thrown(MalformedJson))
      case Answered(_, Some(body)) => Effect(StoreBody(jar, body), sent, Returned(body))
  }

  /** A missing credential: the fixed error, no request, no cookie write. */
  lemma GoogleMissingCredential(jar: Jar, credential: Option<string>, outcome: FetchOutcome)
    requires !Truthy(credential)
    ensures GoogleSignin(jar, credential, outcome) == Effect(jar, None, Thrown(Message(NoCredentialMessage)))
  {
  }

  /** A readable body is stored whatever the HTTP status. */
  lemma GoogleStoresWhateverStatus(jar: Jar, credential: string, ok: bool, body: AuthBody)
    requires credential != ""
    ensures var e := GoogleSignin(jar, Some(credential), Answered(ok, Some(body)));
            && Get(e.jar, AccessToken) == Some(body.accessToken)
            && Get(e.jar, RefreshToken) == Some(body.refreshToken)
            && e.jar[AccessToken].expires == Some(1.0 / 144.0)
            && e.result == Returned(body)
  {
    DateUtils.TenMinutes();
  }
}
