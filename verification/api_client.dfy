/** The authenticated request pipeline: the request and response
    interceptors installed on the shared HTTP client instance.

    One original request is followed as a small state machine. It is sent
    through the instance (the request interceptor attaches the bearer token),
    and its outcome goes through the response interceptor. A first 401 marks
    the request as retried and, when a refresh token is stored, calls the
    refresh endpoint; a successful refresh stores the new tokens and resends
    the request once through the plain client, whose outcome is final.
    Network outcomes are the machine's input events. */
module ApiClient {
  import opened Wrappers
  import opened Strings
  import opened Cookies
  import DateUtils

  /** Requests whose URL contains this text get no bearer token. */
  const LogoutPath := "auth/logout"

  const AuthorizationHeader := "Authorization"

  const Unauthorized := 401

  /** A request configuration: URL, headers, payload and the `_retry` flag. */
  datatype Config = Config(url: string, headers: map<string, string>, data: string, retry: bool)

  function Bearer(token: string): string {
    "Bearer " + token
  }

  // ---------------------------------------------------------------------
  // Request interceptor

  /** The bearer rule: an access token is stored (and non-empty), the URL is
      non-empty, and it does not mention the logout endpoint. */
  predicate AttachesBearer(jar: Jar, config: Config) {
    Truthy(Get(jar, AccessToken)) && config.url != "" && !Includes(config.url, LogoutPath)
  }

  /** The request interceptor. */
  function AttachBearer(jar: Jar, config: Config): (sent: Config)
    ensures sent.url == config.url && sent.data == config.data && sent.retry == config.retry
    ensures AttachesBearer(jar, config) ==>
              && AuthorizationHeader in sent.headers
              && sent.headers[AuthorizationHeader] == Bearer(Get(jar, AccessToken).value)
              && sent.headers.Keys == config.headers.Keys + {AuthorizationHeader}
    ensures !AttachesBearer(jar, config) ==> sent == config
    ensures forall h :: h in config.headers && h != AuthorizationHeader ==> h in sent.headers && sent.headers[h] == config.headers[h]
  {
    if AttachesBearer(jar, config) then
      config.(headers := config.headers[AuthorizationHeader := Bearer(Get(jar, AccessToken).value)])
    else config
  }

  /** The three conditions of the bearer rule, spelled out: a request to any
      URL that contains "auth/logout" anywhere is sent exactly as given. */
  lemma BearerRule(jar: Jar, config: Config)
    ensures AttachBearer(jar, config) != config ==> AccessToken in jar && jar[AccessToken].value != "" && config.url != ""
    ensures (exists i :: OccursAt(config.url, LogoutPath, i)) ==> AttachBearer(jar, config) == config
    ensures AccessToken in jar && jar[AccessToken].value != "" && config.url != ""
            && (forall i :: !OccursAt(config.url, LogoutPath, i))
            ==> && AuthorizationHeader in AttachBearer(jar, config).headers
                && AttachBearer(jar, config).headers[AuthorizationHeader] == Bearer(jar[AccessToken].value)
  {
    IncludesIff(config.url, LogoutPath);
  }

  // ---------------------------------------------------------------------
  // Network outcomes and the machine

  datatype Response = Response(status: int, data: string)

  /** What a send resolves to: a response, or a rejection carrying the
      HTTP status of the error response. */
  datatype Reply = Resolved(response: Response) | Rejected(status: int)

  /** What the refresh endpoint answers. */
  datatype RefreshReply = Refreshed(accessToken: string, refreshToken: string) | RefreshFailed

  /** The network calls the pipeline makes, in order. */
  datatype Call =
    | Send(config: Config)          // through the intercepted instance
    | RefreshCall(token: string)    // to the refresh endpoint, with the refresh token
    | PlainSend(config: Config)     // through the plain client, not intercepted

  datatype Phase =
    | AwaitingReply(config: Config)
    | AwaitingRefresh(config: Config, status: int)
    | AwaitingResend(config: Config)
    | Settled(result: Reply)

  datatype Event = ServerReply(reply: Reply) | RefreshAnswer(answer: RefreshReply)

  datatype Machine = Machine(jar: Jar, phase: Phase, calls: seq<Call>)

  /** Sending `config` through the instance. */
  function Begin(jar: Jar, config: Config): (m: Machine)
    ensures m.jar == jar
    ensures m.phase == AwaitingReply(AttachBearer(jar, config))
    ensures m.calls == [Send(AttachBearer(jar, config))]
  {
    var sent := AttachBearer(jar, config);
    Machine(jar, AwaitingReply(sent), [Send(sent)])
  }

  /** The response interceptor, on the outcome of the intercepted send. */
  function OnReply(jar: Jar, config: Config, reply: Reply, calls: seq<Call>): (m: Machine)
    ensures m.jar == jar
    ensures m.phase.Settled? || m.phase.AwaitingRefresh?
    ensures m.phase.AwaitingRefresh? ==> m.phase.config == config.(retry := true)
    ensures m.phase.Settled? ==> m.phase.result == reply && m.calls == calls
  {
    match reply
    case Resolved(_) => Machine(jar, Settled(reply), calls)
    case Rejected(status) =>
      if status == Unauthorized && !config.retry then
        var flagged := config.(retry := true);
        var token := Get(jar, RefreshToken);
        if Truthy(token) then Machine(jar, AwaitingRefresh(flagged, status), calls + [RefreshCall(token.value)])
        else Machine(jar, Settled(reply), calls)
      else Machine(jar, Settled(reply), calls)
  }

  /** The response interceptor, on the answer of the refresh endpoint. */
  function OnRefresh(jar: Jar, config: Config, status: int, answer: RefreshReply, calls: seq<Call>, lifetime: string): (m: Machine)
    ensures answer.Refreshed? ==>
              && m.jar == StoreTokens(jar, answer.accessToken, answer.refreshToken, DateUtils.ParseExpirationInDays(lifetime))
              && m.phase.AwaitingResend?
              && AuthorizationHeader in m.phase.config.headers
              && m.phase.config.headers[AuthorizationHeader] == Bearer(answer.accessToken)
              && m.phase.config.url == config.url && m.phase.config.data == config.data && m.phase.config.retry == config.retry
              && m.phase.config.headers.Keys == config.headers.Keys + {AuthorizationHeader}
              && (forall h :: h in config.headers && h != AuthorizationHeader ==> h in m.phase.config.headers && m.phase.config.headers[h] == config.headers[h])
              && m.calls == calls + [PlainSend(m.phase.config)]
    ensures answer.RefreshFailed? ==>
              m.jar == ClearTokens(jar) && m.phase == Settled(Rejected(status)) && m.calls == calls
  {
    match answer
    case Refreshed(access, refresh) =>
      var stored := StoreTokens(jar, access, refresh, DateUtils.ParseExpirationInDays(lifetime));
      var resent := config.(headers := config.headers[AuthorizationHeader := Bearer(access)]);
      Machine(stored, AwaitingResend(resent), calls + [PlainSend(resent)])
    case RefreshFailed =>
      Machine(ClearTokens(jar), Settled(Rejected(status)), calls)
  }

  /** One transition. An event that does not fit the phase is ignored; in
      particular nothing moves a settled request. `lifetime` is the configured
      access-token lifetime string. */
  function Step(m: Machine, e: Event, lifetime: string): (m': Machine)
    ensures m.phase.Settled? ==> m' == m
    ensures |m'.calls| >= |m.calls| && m'.calls[..|m.calls|] == m.calls
  {
    match (m.phase, e)
    case (AwaitingReply(config), ServerReply(reply)) => OnReply(m.jar, config, reply, m.calls)
    case (AwaitingRefresh(config, status), RefreshAnswer(answer)) =>
      OnRefresh(m.jar, config, status, answer, m.calls, lifetime)
    case (AwaitingResend(_), ServerReply(reply)) => m.(phase := Settled(reply))
    case _ => m
  }

  /** A sequence of events, one step each. */
  function Run(m: Machine, events: seq<Event>, lifetime: string): Machine
    decreases |events|
  {
    if |events| == 0 then m else Run(Step(m, events[0], lifetime), events[1..], lifetime)
  }

  /** The whole pipeline for one request: the reply to the intercepted send,
      the refresh answer, and the reply to the resend, each used only if the
      pipeline gets that far. It always settles. */
  function Pipeline(jar: Jar, config: Config, first: Reply, refresh: RefreshReply, resend: Reply, lifetime: string): (m: Machine)
    ensures m.phase.Settled?
  {
    var m0 := Begin(jar, config);
    var m1 := Step(m0, ServerReply(first), lifetime);
    var m2 := Step(m1, RefreshAnswer(refresh), lifetime);
    Step(m2, ServerReply(resend), lifetime)
  }

  // ---------------------------------------------------------------------
  // At most one refresh and one resend per request

  function CountRefreshes(calls: seq<Call>): nat {
    if |calls| == 0 then 0 else (if calls[0].RefreshCall? then 1 else 0) + CountRefreshes(calls[1..])
  }

  function CountResends(calls: seq<Call>): nat {
    if |calls| == 0 then 0 else (if calls[0].PlainSend? then 1 else 0) + CountResends(calls[1..])
  }

  lemma {:induction false} CountsAppend(a: seq<Call>, b: seq<Call>)
    ensures CountRefreshes(a + b) == CountRefreshes(a) + CountRefreshes(b)
    ensures CountResends(a + b) == CountResends(a) + CountResends(b)
    decreases |a|
  {
    if |a| == 0 {
      assert a + b == b;
    } else {
      assert (a + b)[1..] == a[1..] + b;
      CountsAppend(a[1..], b);
    }
  }

  /** How many refreshes and resends each phase has behind it. */
  ghost predicate Budget(m: Machine) {
    match m.phase
    case AwaitingReply(config) => CountRefreshes(m.calls) == 0 && CountResends(m.calls) == 0
    case AwaitingRefresh(config, _) => config.retry && CountRefreshes(m.calls) == 1 && CountResends(m.calls) == 0
    case AwaitingResend(_) => CountRefreshes(m.calls) == 1 && CountResends(m.calls) == 1
    case Settled(_) => CountRefreshes(m.calls) <= 1 && CountResends(m.calls) <= 1
  }

  lemma StepKeepsBudget(m: Machine, e: Event, lifetime: string)
    requires Budget(m)
    ensures Budget(Step(m, e, lifetime))
  {
    match (m.phase, e)
    case (AwaitingReply(config), ServerReply(reply)) =>
      CountsAppend(m.calls, [RefreshCall("")]);
      if reply.Rejected? && reply.status == Unauthorized && !config.retry && Truthy(Get(m.jar, RefreshToken)) {
        CountsAppend(m.calls, [RefreshCall(Get(m.jar, RefreshToken).value)]);
      }
    case (AwaitingRefresh(config, status), RefreshAnswer(answer)) =>
      if answer.Refreshed? {
        var resent := config.(headers := config.headers[AuthorizationHeader := Bearer(answer.accessToken)]);
        CountsAppend(m.calls, [PlainSend(resent)]);
      }
    case _ =>
  }

  /** Whatever the network does, and however many events arrive, one request
      causes at most one refresh call and at most one resend. */
  lemma {:induction false} AtMostOneRefreshAndResend(jar: Jar, config: Config, events: seq<Event>, lifetime: string)
    ensures CountRefreshes(Run(Begin(jar, config), events, lifetime).calls) <= 1
    ensures CountResends(Run(Begin(jar, config), events, lifetime).calls) <= 1
  {
    RunKeepsBudget(Begin(jar, config), events, lifetime);
  }

  lemma {:induction false} RunKeepsBudget(m: Machine, events: seq<Event>, lifetime: string)
    requires Budget(m)
    ensures Budget(Run(m, events, lifetime))
    decreases |events|
  {
    if |events| > 0 {
      StepKeepsBudget(m, events[0], lifetime);
      RunKeepsBudget(Step(m, events[0], lifetime), events[1..], lifetime);
    }
  }

  /** The resend goes through the plain client: whatever it answers, the
      answer is final, and the tokens just stored stay in the jar. */
  lemma ResendNotIntercepted(m: Machine, reply: Reply, lifetime: string)
    requires m.phase.AwaitingResend?
    ensures Step(m, ServerReply(reply), lifetime) == Machine(m.jar, Settled(reply), m.calls)
  {
  }

  // ---------------------------------------------------------------------
  // The outcomes of the pipeline, case by case

  /** A successful response passes through unchanged; no cookie is touched
      and nothing else is sent. */
  lemma SuccessPassesThrough(jar: Jar, config: Config, response: Response, refresh: RefreshReply, resend: Reply, lifetime: string)
    ensures var m := Pipeline(jar, config, Resolved(response), refresh, resend, lifetime);
            m.phase.result == Resolved(response) && m.jar == jar && m.calls == [Send(AttachBearer(jar, config))]
  {
  }

  /** A rejection other than 401, or a 401 on a request already marked as
      retried, is passed on unchanged, with cookies unchanged. */
  lemma OtherErrorsPropagate(jar: Jar, config: Config, status: int, refresh: RefreshReply, resend: Reply, lifetime: string)
    requires status != Unauthorized || config.retry
    ensures var m := Pipeline(jar, config, Rejected(status), refresh, resend, lifetime);
            m.phase.result == Rejected(status) && m.jar == jar && m.calls == [Send(AttachBearer(jar, config))]
  {
  }

  /** A first 401 without a stored refresh token is passed on without any
      refresh call. */
  lemma MissingRefreshTokenPropagates(jar: Jar, config: Config, refresh: RefreshReply, resend: Reply, lifetime: string)
    requires !config.retry && !Truthy(Get(jar, RefreshToken))
    ensures var m := Pipeline(jar, config, Rejected(Unauthorized), refresh, resend, lifetime);
            m.phase.result == Rejected(Unauthorized) && m.jar == jar && m.calls == [Send(AttachBearer(jar, config))]
  {
  }

  /** A first 401 with a refresh token, and a successful refresh: the new
      access token is stored with the configured lifetime, the new refresh
      token as a session cookie, the request is resent once with the new
      bearer token, and the resend's outcome is the result. */
  lemma RefreshSuccessResends(jar: Jar, config: Config, access: string, refresh: string, resend: Reply, lifetime: string)
    requires !config.retry && Truthy(Get(jar, RefreshToken))
    ensures var m := Pipeline(jar, config, Rejected(Unauthorized), Refreshed(access, refresh), resend, lifetime);
            var sent := AttachBearer(jar, config);
            && m.phase.result == resend
            && m.jar == StoreTokens(jar, access, refresh, DateUtils.ParseExpirationInDays(lifetime))
            && |m.calls| == 3
            && m.calls[0] == Send(sent)
            && RefreshToken in jar
            && m.calls[1] == RefreshCall(jar[RefreshToken].value)
            && m.calls[2].PlainSend?
            && AuthorizationHeader in m.calls[2].config.headers
            && m.calls[2].config.headers[AuthorizationHeader] == Bearer(access)
            && m.calls[2].config.url == config.url && m.calls[2].config.retry
  {
  }

  /** A first 401 with a refresh token, and a failed refresh: both token
      cookies are removed and the original 401 is passed on. */
  lemma RefreshFailureClears(jar: Jar, config: Config, resend: Reply, lifetime: string)
    requires !config.retry && Truthy(Get(jar, RefreshToken))
    ensures var m := Pipeline(jar, config, Rejected(Unauthorized), RefreshFailed, resend, lifetime);
            && m.phase.result == Rejected(Unauthorized)
            && m.jar == ClearTokens(jar)
            && m.calls == [Send(AttachBearer(jar, config)), RefreshCall(jar[RefreshToken].value)]
  {
  }

  /** A URL shorter than the text searched for cannot contain it. */
  lemma {:induction false} ShorterThanNeedle(url: string, needle: string)
    requires |url| < |needle|
    ensures !Includes(url, needle)
    decreases |url|
  {
    if |url| > 0 {
      ShorterThanNeedle(url[1..], needle);
    }
  }

  /** The session scenario: after a sign-in stored tokens A1/R1, a request to
      /posts carries "Bearer A1"; when it is refused with 401 and the refresh
      returns A2/R2, the jar holds A2 and R2 and the request is resent with
      "Bearer A2". */
  lemma RefreshScenario(a1: string, r1: string, a2: string, r2: string, resend: Reply, lifetime: string)
    requires a1 != "" && r1 != ""
    ensures var jar := StoreTokens(map[], a1, r1, DateUtils.ParseExpirationInDays(lifetime));
            var m := Pipeline(jar, Config("/posts", map[], "", false), Rejected(Unauthorized), Refreshed(a2, r2), resend, lifetime);
            && |m.calls| == 3
            && AuthorizationHeader in m.calls[0].config.headers
            && m.calls[0].config.headers[AuthorizationHeader] == Bearer(a1)
            && m.calls[1] == RefreshCall(r1)
            && AuthorizationHeader in m.calls[2].config.headers
            && m.calls[2].config.headers[AuthorizationHeader] == Bearer(a2)
            && Get(m.jar, AccessToken) == Some(a2)
            && Get(m.jar, RefreshToken) == Some(r2)
            && m.phase.result == resend
  {
    var jar := StoreTokens(map[], a1, r1, DateUtils.ParseExpirationInDays(lifetime));
    var config := Config("/posts", map[], "", false);
    ShorterThanNeedle("/posts", LogoutPath);
    assert AttachesBearer(jar, config);
    var sent := AttachBearer(jar, config);
    assert sent.headers[AuthorizationHeader] == Bearer(a1);
    RefreshSuccessResends(jar, config, a2, r2, resend, lifetime);
    var m := Pipeline(jar, config, Rejected(Unauthorized), Refreshed(a2, r2), resend, lifetime);
    assert m.calls[0] == Send(sent);
    assert m.jar == StoreTokens(jar, a2, r2, DateUtils.ParseExpirationInDays(lifetime));
  }
}
