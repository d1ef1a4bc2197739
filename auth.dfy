/** The session and token state machine of `SxmClient` (aiosxm/client.py) as
    functions over the client's state: `request` with its expiry check, the five
    steps of the authentication chain, `_authenticate` and `connect`. The class
    `Client.SxmClient` runs the same steps imperatively and is proved to agree
    with these functions; the lemmas below state what the chain promises. */
module Auth {
  import opened Common
  import opened Http

  /** The fixed inputs of one client: its credentials and the server it talks to. */
  datatype Env = Env(username: string, password: string, server: Server)

  /** The arguments of one `request` call; `headers == None` means the caller passed none. */
  datatype Call = Call(verb: string, url: Option<string>, headers: Option<map<string, string>>, payload: Payload)

  /** The fields of `SxmClient` that the chain reads and writes, the module-level
      header dictionary that `request` updates in place, and the log of requests
      the transport has been handed. */
  datatype ClientState = ClientState(
    deviceSession: Option<Body>,
    anonymousSession: Option<Body>,
    authenticationResponse: Option<Body>,
    authenticatedSession: Option<Body>,
    accessToken: Option<string>,
    expiration: Option<int>,
    defaultHeaders: map<string, string>,
    sent: seq<Outgoing>)

  const DevicesUrl := "https://api.edge-gateway.siriusxm.com/device/v1/devices"
  const AnonymousUrl := "https://api.edge-gateway.siriusxm.com/session/v1/sessions/anonymous"
  const IdentityStatusUrl := "https://api.edge-gateway.siriusxm.com/identity/v1/identities/status?handle="
  const PasswordUrl := "https://api.edge-gateway.siriusxm.com/identity/v1/identities/authenticate/password"
  const AuthenticatedUrl := "https://api.edge-gateway.siriusxm.com/session/v1/sessions/authenticated"
  const PlayerUrl := "https://www.siriusxm.com/player"

  /** SXM_REQUEST_HEADERS as the package defines it. */
  const RequestHeaders: map<string, string> := map[
    "Accept" := "application/json; charset=utf-8",
    "Accept-Language" := "en-US,en;q=0.9",
    "Baggage" := "sentry-environment=prod,sentry-release=release-sxm-player-7.0",
    "Content-Type" := "application/json; charset=UTF-8",
    "Dnt" := "1",
    "Origin" := "https://www.siriusxm.com",
    "Referer" := "https://www.siriusxm.com/",
    "Sec-Ch-Ua" := "'Not_A Brand';v='8', 'Chromium';v='120', 'Microsoft Edge';v='120'",
    "Sec-Ch-Ua-Mobile" := "?0",
    "Sec-Ch-Ua-Platform" := "'macOS'",
    "Sec-Fetch-Dest" := "empty",
    "Sec-Fetch-Mode" := "cors",
    "Sec-Fetch-Site" := "same-site",
    "User-Agent" := "Mozilla/5.0 (Macintosh; Intel Mac OS X 10_15_7) AppleWebKit/537.36 (KHTML, like Gecko) Chrome/120.0.0.0 Safari/537.36 Edg/120.0.0.0",
    "X-Sxm-Clock" := "[0,0]",
    "X-Sxm-Platform" := "browser",
    "X-Sxm-Tenant" := "sxm"]

  /** A freshly constructed client: nothing cached, no token, nothing sent. */
  const Initial := ClientState(None, None, None, None, None, None, RequestHeaders, [])

  function IdentityUrl(username: string): string { IdentityStatusUrl + username }

  function NoPasswordMessage(username: string): string { "User " + username + " does not have a password set." }

  function ChainFailedMessage(username: string): string { "An error occurred during authentication of user " + username }

  /** The error the package means to raise: AuthenticationError(message, original_exception). */
  function RaiseAuthenticationError(message: string, cause: Option<Error>): Error
  {
    AuthenticationError(message, cause)
  }

  /** What `raise AuthenticationError(message)` evaluates to as written: the
      constructor takes two parameters, so calling it with one raises a TypeError,
      whose context is the exception being handled, if any. */
  function RaiseAuthenticationErrorAsWritten(message: string, context: Option<Error>): Error
  {
    RuntimeFault(TypeError, context)
  }

  /** The `except RequestError` around the chain: a transport error becomes an
      AuthenticationError that keeps it as its cause; anything else passes through. */
  function Wrap(env: Env, e: Error): (r: Error)
    ensures e.RequestError? ==> r.AuthenticationError? && r.originalException == Some(e)
    ensures !e.RequestError? ==> r == e
  {
    if e.RequestError? then RaiseAuthenticationError(ChainFailedMessage(env.username), Some(e)) else e
  }

  /** `accessTokenExpiresAt` of the authenticated session, already parsed into a clock value. */
  function ExpiryField(b: Option<Body>): (r: Result<int, Error>)
    ensures r.Success? <==> BodyKey(b, "accessTokenExpiresAt").Success? && BodyKey(b, "accessTokenExpiresAt").value.JNum?
    ensures r.Failure? ==> r.error.RuntimeFault?
  {
    var j :- BodyKey(b, "accessTokenExpiresAt");
    if j.JNum? then Success(j.n) else Failure(RuntimeFault(ValueError, None))
  }

  /** The recursion measure: `request` only re-enters the chain when an expiry is held,
      and does so after clearing it. */
  function Level(expiration: Option<int>): nat { if expiration.Some? then 1 else 0 }

  /** The expiry check of `request`: an expiry is held and the clock has reached it. */
  predicate Expired(env: Env, s: ClientState)
  {
    s.expiration.Some? && env.server.clock(|s.sent|) >= s.expiration.value
  }

  /** The headers a call starts from: the caller's, or the shared default dictionary. */
  function BaseHeaders(s: ClientState, c: Call): map<string, string>
  {
    if c.headers.None? then s.defaultHeaders else c.headers.value
  }

  /** `request` after the expiry check: override the bearer, hand the request to
      the transport and decode or wrap what comes back. Without a URL the
      transport raises a TypeError before anything is sent. */
  function Send(env: Env, s: ClientState, c: Call): (res: (Result<Body, Error>, ClientState))
    ensures res.1 == s.(defaultHeaders := res.1.defaultHeaders, sent := res.1.sent)
    ensures c.url.None? ==> res.1.sent == s.sent && res.0 == Failure(RuntimeFault(TypeError, None))
    ensures c.url.Some? ==> res.1.sent == s.sent + [Outgoing(c.verb, c.url.value, Authorize(BaseHeaders(s, c), s.accessToken), c.payload)]
  {
    var headers := Authorize(BaseHeaders(s, c), s.accessToken);
    var s1 := if c.headers.None? then s.(defaultHeaders := headers) else s;
    match c.url
    case None => (Failure(RuntimeFault(TypeError, None)), s1)
    case Some(url) =>
      var out := Outgoing(c.verb, url, headers, c.payload);
      (Receive(url, env.server.reply(|s1.sent|, out)), s1.(sent := s1.sent + [out]))
  }

  /** `request`: with an expired token, clear it and run the chain first. */
  function Request(env: Env, s: ClientState, c: Call): (res: (Result<Body, Error>, ClientState))
    decreases Level(s.expiration), 0
    ensures s.expiration.None? ==> res.1.expiration.None?
    ensures s.sent <= res.1.sent
  {
    if Expired(env, s) then
      var (a, s1) := Authenticate(env, s.(accessToken := None, expiration := None));
      if a.Fail? then (Failure(a.error), s1) else Send(env, s1, c)
    else
      Send(env, s, c)
  }

  /** `_create_device_session`. */
  function CreateDeviceSession(env: Env, s: ClientState): (res: (Outcome, ClientState))
    decreases Level(s.expiration), 1
    ensures s.expiration.None? ==> res.1.expiration.None?
    ensures s.sent <= res.1.sent
  {
    var (r, s1) := Request(env, s, Call("POST", Some(DevicesUrl), None, DevicePayload));
    if r.Failure? then (Fail(r.error), s1) else (Pass, s1.(deviceSession := Some(r.value)))
  }

  /** The explicit headers of a chain step: the shared defaults plus the step's bearer. */
  function BearerHeaders(s: ClientState, bearer: string): map<string, string>
  {
    s.defaultHeaders[Authorization := "Bearer " + bearer]
  }

  /** `_create_anonymous_session(device_grant)`. */
  function CreateAnonymousSession(env: Env, s: ClientState, deviceGrant: string): (res: (Outcome, ClientState))
    decreases Level(s.expiration), 1
    ensures s.expiration.None? ==> res.1.expiration.None?
    ensures s.sent <= res.1.sent
  {
    var (r, s1) := Request(env, s, Call("POST", Some(AnonymousUrl), Some(BearerHeaders(s, deviceGrant)), JsonPayload(JBool(true))));
    if r.Failure? then (Fail(r.error), s1) else (Pass, s1.(anonymousSession := Some(r.value)))
  }

  /** `_get_identity_status(username, anonymous_access_token)`. */
  function GetIdentityStatus(env: Env, s: ClientState, anonymousToken: string): (res: (Result<Body, Error>, ClientState))
    decreases Level(s.expiration), 1
    ensures s.expiration.None? ==> res.1.expiration.None?
    ensures s.sent <= res.1.sent
  {
    Request(env, s, Call("GET", Some(IdentityUrl(env.username)), Some(BearerHeaders(s, anonymousToken)), JsonPayload(JBool(true))))
  }

  function PasswordPayload(env: Env): Payload
  {
    JsonPayload(JObj(map["handle" := JStr(env.username), "password" := JStr(env.password)]))
  }

  /** `_authenticate_with_password(anonymous_access_token)`. */
  function AuthenticateWithPassword(env: Env, s: ClientState, anonymousToken: string): (res: (Outcome, ClientState))
    decreases Level(s.expiration), 1
    ensures s.expiration.None? ==> res.1.expiration.None?
    ensures s.sent <= res.1.sent
  {
    var (r, s1) := Request(env, s, Call("POST", Some(PasswordUrl), Some(BearerHeaders(s, anonymousToken)), PasswordPayload(env)));
    if r.Failure? then (Fail(r.error), s1) else (Pass, s1.(authenticationResponse := Some(r.value)))
  }

  /** `_create_authenticated_session(authentication_grant)`. */
  function CreateAuthenticatedSession(env: Env, s: ClientState, authenticationGrant: string): (res: (Outcome, ClientState))
    decreases Level(s.expiration), 1
    ensures s.expiration.None? ==> res.1.expiration.None?
    ensures s.sent <= res.1.sent
  {
    var (r, s1) := Request(env, s, Call("POST", Some(AuthenticatedUrl), Some(BearerHeaders(s, authenticationGrant)), JsonPayload(JBool(true))));
    if r.Failure? then (Fail(r.error), s1) else (Pass, s1.(authenticatedSession := Some(r.value)))
  }

  /** `_authenticate`: the five steps in order, each bearer read from the previous
      step's stored response; device registration is skipped when a truthy device
      session is cached. Every RequestError a step raises is wrapped; nothing else
      is. The chain is split into one function per remaining stage. */
  function Authenticate(env: Env, s: ClientState): (res: (Outcome, ClientState))
    decreases Level(s.expiration), 7
    ensures s.sent <= res.1.sent
  {
    var (o0, s0) := if BodyTruthy(s.deviceSession) then (Pass, s) else CreateDeviceSession(env, s);
    if o0.Fail? then (Fail(Wrap(env, o0.error)), s0) else AfterDevice(env, s0)
  }

  /** The chain once a device session is held: the anonymous session. */
  function AfterDevice(env: Env, s0: ClientState): (res: (Outcome, ClientState))
    decreases Level(s0.expiration), 6
    ensures s0.sent <= res.1.sent
  {
    var grant := StrField(s0.deviceSession, "grant");
    if grant.Failure? then (Fail(grant.error), s0) else
    var (o1, s1) := CreateAnonymousSession(env, s0, grant.value);
    if o1.Fail? then (Fail(Wrap(env, o1.error)), s1) else AfterAnonymous(env, s1)
  }

  /** The chain once an anonymous session is held: the identity status, which ends
      the chain when it says the account has no password. */
  function AfterAnonymous(env: Env, s1: ClientState): (res: (Outcome, ClientState))
    decreases Level(s1.expiration), 5
    ensures s1.sent <= res.1.sent
  {
    var anonymous := StrField(s1.anonymousSession, "accessToken");
    if anonymous.Failure? then (Fail(anonymous.error), s1) else
    var (r2, s2) := GetIdentityStatus(env, s1, anonymous.value);
    if r2.Failure? then (Fail(Wrap(env, r2.error)), s2) else
    var hasPassword := BodyKey(Some(r2.value), "hasPassword");
    if hasPassword.Failure? then (Fail(hasPassword.error), s2) else
    if !Truthy(hasPassword.value) then (Fail(RaiseAuthenticationError(NoPasswordMessage(env.username), None)), s2) else
    AfterIdentity(env, s2)
  }

  /** The chain once the identity is known to have a password: password authentication,
      with the anonymous token read again from the stored session. */
  function AfterIdentity(env: Env, s2: ClientState): (res: (Outcome, ClientState))
    decreases Level(s2.expiration), 4
    ensures s2.sent <= res.1.sent
  {
    var anonymous := StrField(s2.anonymousSession, "accessToken");
    if anonymous.Failure? then (Fail(anonymous.error), s2) else
    var (o3, s3) := AuthenticateWithPassword(env, s2, anonymous.value);
    if o3.Fail? then (Fail(Wrap(env, o3.error)), s3) else AfterPassword(env, s3)
  }

  /** The chain once the password is accepted: the authenticated session, then the token. */
  function AfterPassword(env: Env, s3: ClientState): (res: (Outcome, ClientState))
    decreases Level(s3.expiration), 3
    ensures s3.sent <= res.1.sent
  {
    var authGrant := StrField(s3.authenticationResponse, "grant");
    if authGrant.Failure? then (Fail(authGrant.error), s3) else
    var (o4, s4) := CreateAuthenticatedSession(env, s3, authGrant.value);
    if o4.Fail? then (Fail(Wrap(env, o4.error)), s4) else StoreToken(s4)
  }

  /** Lines 191-193: the token is stored before the expiry is parsed, so a bad
      expiry leaves a token held without one. */
  function StoreToken(s4: ClientState): (res: (Outcome, ClientState))
    ensures res.1.sent == s4.sent
    ensures res.0.Pass? <==> StrField(s4.authenticatedSession, "accessToken").Success? && ExpiryField(s4.authenticatedSession).Success?
    ensures res.0.Pass? ==> res.1 == s4.(accessToken := Some(StrField(s4.authenticatedSession, "accessToken").value),
                                         expiration := Some(ExpiryField(s4.authenticatedSession).value))
    ensures res.0.Fail? && StrField(s4.authenticatedSession, "accessToken").Failure? ==>
      res == (Fail(StrField(s4.authenticatedSession, "accessToken").error), s4)
    ensures res.0.Fail? && StrField(s4.authenticatedSession, "accessToken").Success? ==>
      res == (Fail(ExpiryField(s4.authenticatedSession).error), s4.(accessToken := Some(StrField(s4.authenticatedSession, "accessToken").value)))
  {
    var token := StrField(s4.authenticatedSession, "accessToken");
    if token.Failure? then (Fail(token.error), s4) else
    var s5 := s4.(accessToken := Some(token.value));
    var expiry := ExpiryField(s4.authenticatedSession);
    if expiry.Failure? then (Fail(expiry.error), s5) else
    (Pass, s5.(expiration := Some(expiry.value)))
  }

  /** `connect`: register a device, authenticate, then fetch the web player page
      (whose parsing is not modelled). None of these errors is wrapped. */
  function Connect(env: Env, s: ClientState): (res: (Outcome, ClientState))
  {
    var (o0, s0) := CreateDeviceSession(env, s);
    if o0.Fail? then (o0, s0) else
    var (o1, s1) := Authenticate(env, s0);
    if o1.Fail? then (o1, s1) else
    var (r2, s2) := Request(env, s1, Call("GET", Some(PlayerUrl), None, NoPayload));
    if r2.Failure? then (Fail(r2.error), s2) else (Pass, s2)
  }

  // ---------------------------------------------------------------------------
  // Properties of the chain

  /** The reply the transport gave to the i-th request of a log, as `request` sees it. */
  function ReplyTo(env: Env, log: seq<Outgoing>, i: nat): Result<Body, Error>
    requires i < |log|
  {
    Receive(log[i].url, env.server.reply(i, log[i]))
  }

  /** A request to `url` whose bearer is `field`, which was read successfully. */
  predicate Bears(o: Outgoing, url: string, field: Result<string, Error>)
  {
    field.Success? && o.url == url && Authorization in o.headers && o.headers[Authorization] == "Bearer " + field.value
  }

  /** An identity status saying the account has no password. */
  predicate DeniesPassword(r: Result<Body, Error>)
  {
    r.Success? && BodyKey(Some(r.value), "hasPassword").Success? && !Truthy(BodyKey(Some(r.value), "hasPassword").value)
  }

  /** A state in which `request` neither refreshes nor attaches a bearer of its own. */
  predicate Cleared(s: ClientState)
  {
    s.accessToken.None? && s.expiration.None?
  }

  lemma {:induction false} IdentityUrlIsDistinct(username: string)
    ensures IdentityUrl(username) != DevicesUrl && IdentityUrl(username) != AnonymousUrl
    ensures IdentityUrl(username) != PasswordUrl && IdentityUrl(username) != AuthenticatedUrl
    ensures IdentityUrl(username) != PlayerUrl
  {
    var u := IdentityUrl(username);
    assert u[38] == 'i' && DevicesUrl[38] == 'd' && AnonymousUrl[38] == 's' && AuthenticatedUrl[38] == 's';
    assert u[61] == 's' && PasswordUrl[61] == 'a';
    assert |u| >= |IdentityStatusUrl| > |PlayerUrl|;
  }

  /** In a cleared state `request` sends exactly one request, with the caller's headers untouched. */
  lemma {:induction false} ClearedRequest(env: Env, s: ClientState, c: Call)
    requires Cleared(s) && c.url.Some?
    ensures var out := Outgoing(c.verb, c.url.value, BaseHeaders(s, c), c.payload);
      Request(env, s, c) == (Receive(c.url.value, env.server.reply(|s.sent|, out)), s.(sent := s.sent + [out]))
  {
  }

  /** `request` re-authenticates only when an expiry is held and reached: otherwise
      it sends exactly one request (none without a URL), with the bearer override
      applied to the caller's or the shared headers, and changes no session field,
      token or expiry. In particular a token held without an expiry is never renewed. */
  lemma {:induction false} RequestWithoutRefresh(env: Env, s: ClientState, c: Call)
    requires !Expired(env, s)
    ensures var (_, t) := Request(env, s, c);
      && t.(defaultHeaders := s.defaultHeaders, sent := s.sent) == s
      && (c.url.None? ==> t.sent == s.sent)
      && (c.url.Some? ==> t.sent == s.sent + [Outgoing(c.verb, c.url.value, Authorize(BaseHeaders(s, c), s.accessToken), c.payload)])
      && (c.headers.None? ==> t.defaultHeaders == Authorize(s.defaultHeaders, s.accessToken))
      && (c.headers.Some? ==> t.defaultHeaders == s.defaultHeaders)
  {
  }

  /** The state holds the token and the expiry of the stored authenticated session. */
  predicate StoredToken(t: ClientState)
  {
    && t.accessToken.Some? && StrField(t.authenticatedSession, "accessToken") == Success(t.accessToken.value)
    && t.expiration.Some? && ExpiryField(t.authenticatedSession) == Success(t.expiration.value)
  }

  lemma {:induction false} AfterPasswordFromCleared(env: Env, s: ClientState)
    requires Cleared(s)
    ensures var (o, t) := AfterPassword(env, s); var k := |s.sent|;
      o.Pass? ==>
        && |t.sent| == k + 1 && t.sent[..k] == s.sent
        && t.deviceSession == s.deviceSession && t.anonymousSession == s.anonymousSession
        && t.authenticationResponse == s.authenticationResponse
        && Bears(t.sent[k], AuthenticatedUrl, StrField(t.authenticationResponse, "grant"))
        && StoredToken(t)
  {
    var authGrant := StrField(s.authenticationResponse, "grant");
    if authGrant.Success? {
      ClearedRequest(env, s, Call("POST", Some(AuthenticatedUrl), Some(BearerHeaders(s, authGrant.value)), JsonPayload(JBool(true))));
    }
  }

  lemma {:induction false} AfterIdentityFromCleared(env: Env, s: ClientState)
    requires Cleared(s)
    ensures var (o, t) := AfterIdentity(env, s); var k := |s.sent|;
      o.Pass? ==>
        && |t.sent| == k + 2 && t.sent[..k] == s.sent
        && t.deviceSession == s.deviceSession && t.anonymousSession == s.anonymousSession
        && Bears(t.sent[k], PasswordUrl, StrField(t.anonymousSession, "accessToken"))
        && Bears(t.sent[k + 1], AuthenticatedUrl, StrField(t.authenticationResponse, "grant"))
        && StoredToken(t)
  {
    var anonymous := StrField(s.anonymousSession, "accessToken");
    if anonymous.Success? {
      ClearedRequest(env, s, Call("POST", Some(PasswordUrl), Some(BearerHeaders(s, anonymous.value)), PasswordPayload(env)));
      var (o3, s3) := AuthenticateWithPassword(env, s, anonymous.value);
      if o3.Pass? {
        AfterPasswordFromCleared(env, s3);
      }
    }
  }

  lemma {:induction false} AfterAnonymousFromCleared(env: Env, s: ClientState)
    requires Cleared(s)
    ensures var (o, t) := AfterAnonymous(env, s); var k := |s.sent|;
      o.Pass? ==>
        && |t.sent| == k + 3 && t.sent[..k] == s.sent
        && t.deviceSession == s.deviceSession && t.anonymousSession == s.anonymousSession
        && Bears(t.sent[k], IdentityUrl(env.username), StrField(t.anonymousSession, "accessToken"))
        && Bears(t.sent[k + 1], PasswordUrl, StrField(t.anonymousSession, "accessToken"))
        && Bears(t.sent[k + 2], AuthenticatedUrl, StrField(t.authenticationResponse, "grant"))
        && StoredToken(t)
  {
    var anonymous := StrField(s.anonymousSession, "accessToken");
    if anonymous.Success? {
      ClearedRequest(env, s, Call("GET", Some(IdentityUrl(env.username)), Some(BearerHeaders(s, anonymous.value)), JsonPayload(JBool(true))));
      var (r2, s2) := GetIdentityStatus(env, s, anonymous.value);
      if r2.Success? {
        AfterIdentityFromCleared(env, s2);
      }
    }
  }

  lemma {:induction false} AfterDeviceFromCleared(env: Env, s: ClientState)
    requires Cleared(s)
    ensures var (o, t) := AfterDevice(env, s); var k := |s.sent|;
      o.Pass? ==>
        && |t.sent| == k + 4 && t.sent[..k] == s.sent
        && t.deviceSession == s.deviceSession
        && Bears(t.sent[k], AnonymousUrl, StrField(t.deviceSession, "grant"))
        && Bears(t.sent[k + 1], IdentityUrl(env.username), StrField(t.anonymousSession, "accessToken"))
        && Bears(t.sent[k + 2], PasswordUrl, StrField(t.anonymousSession, "accessToken"))
        && Bears(t.sent[k + 3], AuthenticatedUrl, StrField(t.authenticationResponse, "grant"))
        && StoredToken(t)
  {
    var grant := StrField(s.deviceSession, "grant");
    if grant.Success? {
      ClearedRequest(env, s, Call("POST", Some(AnonymousUrl), Some(BearerHeaders(s, grant.value)), JsonPayload(JBool(true))));
      var (o1, s1) := CreateAnonymousSession(env, s, grant.value);
      if o1.Pass? {
        AfterAnonymousFromCleared(env, s1);
      }
    }
  }

  /** Run from a cleared state, the chain sends exactly its own requests in order
      (no nested refresh): the device registration unless a truthy device session is
      cached, then the anonymous session with the device grant, the identity status
      and the password authentication with the anonymous token, and the authenticated
      session with the authentication grant; then it holds that session's token and expiry. */
  lemma {:induction false} ChainFromClearedState(env: Env, s: ClientState)
    requires Cleared(s)
    ensures var (o, t) := Authenticate(env, s);
      var k := |s.sent|;
      var d := if BodyTruthy(s.deviceSession) then 0 else 1;
      o.Pass? ==>
        && |t.sent| == k + d + 4 && t.sent[..k] == s.sent
        && (d == 1 ==> t.sent[k].url == DevicesUrl)
        && Bears(t.sent[k + d], AnonymousUrl, StrField(t.deviceSession, "grant"))
        && Bears(t.sent[k + d + 1], IdentityUrl(env.username), StrField(t.anonymousSession, "accessToken"))
        && Bears(t.sent[k + d + 2], PasswordUrl, StrField(t.anonymousSession, "accessToken"))
        && Bears(t.sent[k + d + 3], AuthenticatedUrl, StrField(t.authenticationResponse, "grant"))
        && StoredToken(t)
  {
    if BodyTruthy(s.deviceSession) {
      AfterDeviceFromCleared(env, s);
    } else {
      RegisteredChainFromCleared(env, s);
    }
  }

  /** The uncached half of `ChainFromClearedState`: the registration comes first. */
  lemma {:induction false} RegisteredChainFromCleared(env: Env, s: ClientState)
    requires Cleared(s) && !BodyTruthy(s.deviceSession)
    ensures var (o, t) := Authenticate(env, s);
      var k := |s.sent|;
      o.Pass? ==>
        && |t.sent| == k + 5 && t.sent[..k] == s.sent
        && t.sent[k].url == DevicesUrl
        && Bears(t.sent[k + 1], AnonymousUrl, StrField(t.deviceSession, "grant"))
        && Bears(t.sent[k + 2], IdentityUrl(env.username), StrField(t.anonymousSession, "accessToken"))
        && Bears(t.sent[k + 3], PasswordUrl, StrField(t.anonymousSession, "accessToken"))
        && Bears(t.sent[k + 4], AuthenticatedUrl, StrField(t.authenticationResponse, "grant"))
        && StoredToken(t)
  {
    var k := |s.sent|;
    ClearedRequest(env, s, Call("POST", Some(DevicesUrl), None, DevicePayload));
    var (o0, s0) := CreateDeviceSession(env, s);
    if o0.Pass? {
      assert Authenticate(env, s) == AfterDevice(env, s0);
      AfterDeviceFromCleared(env, s0);
      var (o, t) := AfterDevice(env, s0);
      if o.Pass? {
        PrefixOfPrefix(s.sent, s0.sent, t.sent);
      }
    }
  }

  lemma {:induction false} PrefixOfPrefix<T>(a: seq<T>, b: seq<T>, c: seq<T>)
    requires |a| <= |b| <= |c| && b == c[..|b|] && a == b[..|a|]
    ensures c[..|a|] == a
  {
    assert c[..|a|] == c[..|b|][..|a|];
  }

  /** The URLs the chain requests from `s`, in order. */
  function ChainUrls(env: Env, s: ClientState): seq<string>
  {
    (if BodyTruthy(s.deviceSession) then [] else [DevicesUrl]) + [AnonymousUrl, IdentityUrl(env.username), PasswordUrl, AuthenticatedUrl]
  }

  /** The failure half of the chain's contract, for a run that started with `k` requests
      sent: the expiry is never written; a token is written only when the expiry that
      follows it is malformed; no RequestError escapes; a wrapped error carries the
      transport failure of the last request sent. */
  predicate CleanFailure(env: Env, k: nat, o: Outcome, t: ClientState)
  {
    o.Fail? ==>
      && t.expiration.None?
      && (t.accessToken.Some? ==> ExpiryField(t.authenticatedSession).Failure? && o.error == ExpiryField(t.authenticatedSession).error)
      && !o.error.RequestError?
      && (o.error.AuthenticationError? && o.error.originalException.Some? ==>
            && o.error.message == ChainFailedMessage(env.username)
            && k < |t.sent|
            && ReplyTo(env, t.sent, |t.sent| - 1) == Failure(o.error.originalException.value))
  }

  /** The chain fails with the no-password error exactly when its last request was the
      identity status and the reply said the account has no password. */
  predicate NoPasswordExactly(env: Env, k: nat, o: Outcome, t: ClientState)
  {
    o == Fail(RaiseAuthenticationError(NoPasswordMessage(env.username), None)) <==>
      (k < |t.sent| && t.sent[|t.sent| - 1].url == IdentityUrl(env.username) && DeniesPassword(ReplyTo(env, t.sent, |t.sent| - 1)))
  }

  /** A run whose last request failed in transport ends with the chain-failed
      AuthenticationError, whose original exception is that failure. */
  predicate WrapsLastFailure(env: Env, k: nat, o: Outcome, t: ClientState)
  {
    k < |t.sent| && ReplyTo(env, t.sent, |t.sent| - 1).Failure? ==>
      o == Fail(AuthenticationError(ChainFailedMessage(env.username), Some(ReplyTo(env, t.sent, |t.sent| - 1).error)))
  }

  /** What any run of a chain stage from `s` promises, given the URLs that stage requests:
      it requests a prefix of them, all of them when it succeeds, fails cleanly, wraps
      the transport failure of its last request, and raises the no-password error
      exactly when the identity status denies a password. */
  predicate ChainRun(env: Env, s: ClientState, o: Outcome, t: ClientState, urls: seq<string>)
  {
    var k := |s.sent|;
    && s.sent <= t.sent
    && Urls(t.sent[k..]) <= urls
    && (o.Pass? ==> Urls(t.sent[k..]) == urls)
    && CleanFailure(env, k, o, t)
    && WrapsLastFailure(env, k, o, t)
    && NoPasswordExactly(env, k, o, t)
  }

  lemma {:induction false} UrlsAppend(a: seq<Outgoing>, b: seq<Outgoing>)
    ensures Urls(a + b) == Urls(a) + Urls(b)
  {
    UrlsIndex(a + b);
    UrlsIndex(a);
    UrlsIndex(b);
    assert forall i :: 0 <= i < |a + b| ==> Urls(a + b)[i] == (Urls(a) + Urls(b))[i];
  }

  /** A stage that sent `out` and then ran a later stage from `s1` keeps the later stage's promises. */
  lemma {:induction false} ChainRunPrepend(env: Env, s: ClientState, s1: ClientState, out: Outgoing, o: Outcome, t: ClientState, urls: seq<string>)
    requires s1.sent == s.sent + [out] && ReplyTo(env, s1.sent, |s.sent|).Success?
    requires out.url == IdentityUrl(env.username) ==>
      !DeniesPassword(ReplyTo(env, s1.sent, |s.sent|)) && IdentityUrl(env.username) !in urls
    requires ChainRun(env, s1, o, t, urls)
    ensures ChainRun(env, s, o, t, [out.url] + urls)
  {
    var k := |s.sent|;
    assert t.sent[k..] == [out] + t.sent[k + 1..];
    UrlsAppend([out], t.sent[k + 1..]);
    if |t.sent| > k + 1 && out.url == IdentityUrl(env.username) {
      var u := Urls(t.sent[k + 1..]);
      assert u[|u| - 1] == t.sent[|t.sent| - 1].url;
      assert u[|u| - 1] in urls;
    }
  }

  lemma {:induction false} AfterPasswordRun(env: Env, s: ClientState)
    requires Cleared(s)
    ensures var (o, t) := AfterPassword(env, s); ChainRun(env, s, o, t, [AuthenticatedUrl])
  {
    var grant := StrField(s.authenticationResponse, "grant");
    if grant.Failure? {
      StrFieldFault(s.authenticationResponse, "grant");
      assert AfterPassword(env, s) == (Fail(grant.error), s);
      NoRequestStop(env, s, Fail(grant.error), [AuthenticatedUrl]);
    } else if StepReply(env, s, AuthenticatedUrl, grant.value).Failure? {
      AuthenticatedStepFailed(env, s, grant.value);
    } else {
      AuthenticatedStepPassed(env, s, grant.value);
    }
  }

  lemma {:induction false} AuthenticatedStepFailed(env: Env, s: ClientState, grant: string)
    requires Cleared(s) && StrField(s.authenticationResponse, "grant") == Success(grant)
    requires StepReply(env, s, AuthenticatedUrl, grant).Failure?
    ensures var (o, t) := AfterPassword(env, s); ChainRun(env, s, o, t, [AuthenticatedUrl])
  {
    var k := |s.sent|;
    IdentityUrlIsDistinct(env.username);
    var c := Call("POST", Some(AuthenticatedUrl), Some(BearerHeaders(s, grant)), JsonPayload(JBool(true)));
    ClearedRequest(env, s, c);
    var out := StepOut(s, AuthenticatedUrl, grant);
    var r := StepReply(env, s, AuthenticatedUrl, grant);
    var t := s.(sent := s.sent + [out]);
    assert AfterPassword(env, s) == (Fail(Wrap(env, r.error)), t);
    WrappedStepFailure(env, s, out, k);
  }

  lemma {:induction false} AuthenticatedStepPassed(env: Env, s: ClientState, grant: string)
    requires Cleared(s) && StrField(s.authenticationResponse, "grant") == Success(grant)
    requires StepReply(env, s, AuthenticatedUrl, grant).Success?
    ensures var (o, t) := AfterPassword(env, s); ChainRun(env, s, o, t, [AuthenticatedUrl])
  {
    var k := |s.sent|;
    IdentityUrlIsDistinct(env.username);
    var out := StepOut(s, AuthenticatedUrl, grant);
    var s4 := s.(sent := s.sent + [out], authenticatedSession := Some(StepReply(env, s, AuthenticatedUrl, grant).value));
    AuthenticatedStepNext(env, s, grant);
    var (o, t) := StoreToken(s4);
    assert t.sent[k..] == [out];
  }

  lemma {:induction false} AuthenticatedStepNext(env: Env, s: ClientState, grant: string)
    requires Cleared(s) && StrField(s.authenticationResponse, "grant") == Success(grant)
    requires StepReply(env, s, AuthenticatedUrl, grant).Success?
    ensures var out := StepOut(s, AuthenticatedUrl, grant);
      AfterPassword(env, s) == StoreToken(s.(sent := s.sent + [out], authenticatedSession := Some(StepReply(env, s, AuthenticatedUrl, grant).value)))
  {
    var c := Call("POST", Some(AuthenticatedUrl), Some(BearerHeaders(s, grant)), JsonPayload(JBool(true)));
    ClearedRequest(env, s, c);
  }

  /** One chain step from a cleared state whose request failed: the wrapped error
      carries the failure of the one request it sent. */
  lemma {:induction false} WrappedStepFailure(env: Env, s: ClientState, out: Outgoing, k: nat)
    requires Cleared(s) && k == |s.sent| && Receive(out.url, env.server.reply(k, out)).Failure?
    requires out.url != IdentityUrl(env.username)
    ensures var t := s.(sent := s.sent + [out]);
      ChainRun(env, s, Fail(Wrap(env, Receive(out.url, env.server.reply(k, out)).error)), t, [out.url])
  {
    var t := s.(sent := s.sent + [out]);
    assert t.sent[k..] == [out];
  }

  lemma {:induction false} AfterIdentityRun(env: Env, s: ClientState)
    requires Cleared(s)
    ensures var (o, t) := AfterIdentity(env, s); ChainRun(env, s, o, t, [PasswordUrl, AuthenticatedUrl])
  {
    var k := |s.sent|;
    IdentityUrlIsDistinct(env.username);
    var anonymous := StrField(s.anonymousSession, "accessToken");
    if anonymous.Failure? {
      StrFieldFault(s.anonymousSession, "accessToken");
      assert AfterIdentity(env, s) == (Fail(anonymous.error), s);
      NoRequestStop(env, s, Fail(anonymous.error), [PasswordUrl, AuthenticatedUrl]);
      return;
    }
    var c := Call("POST", Some(PasswordUrl), Some(BearerHeaders(s, anonymous.value)), PasswordPayload(env));
    ClearedRequest(env, s, c);
    var out := Outgoing(c.verb, PasswordUrl, BaseHeaders(s, c), c.payload);
    var r := Receive(PasswordUrl, env.server.reply(k, out));
    var t := s.(sent := s.sent + [out]);
    if r.Failure? {
      assert AfterIdentity(env, s) == (Fail(Wrap(env, r.error)), t);
      WrappedStepFailure(env, s, out, k);
      return;
    }
    var s3 := t.(authenticationResponse := Some(r.value));
    assert AfterIdentity(env, s) == AfterPassword(env, s3);
    AfterPasswordRun(env, s3);
    var (o, t') := AfterPassword(env, s3);
    ChainRunPrepend(env, s, s3, out, o, t', [AuthenticatedUrl]);
  }

  lemma {:induction false} AfterAnonymousRun(env: Env, s: ClientState)
    requires Cleared(s)
    ensures var (o, t) := AfterAnonymous(env, s); ChainRun(env, s, o, t, [IdentityUrl(env.username), PasswordUrl, AuthenticatedUrl])
  {
    var anonymous := StrField(s.anonymousSession, "accessToken");
    if anonymous.Failure? {
      StrFieldFault(s.anonymousSession, "accessToken");
      assert AfterAnonymous(env, s) == (Fail(anonymous.error), s);
      NoRequestStop(env, s, Fail(anonymous.error), [IdentityUrl(env.username), PasswordUrl, AuthenticatedUrl]);
    } else if HasPassword(IdentityReply(env, s, anonymous.value)) {
      IdentityStepPassed(env, s, anonymous.value);
    } else {
      IdentityStepStopped(env, s, anonymous.value);
    }
  }

  /** The identity status request sent from a cleared state with the anonymous token. */
  function IdentityOut(env: Env, s: ClientState, token: string): Outgoing
  {
    Outgoing("GET", IdentityUrl(env.username), BearerHeaders(s, token), JsonPayload(JBool(true)))
  }

  function IdentityReply(env: Env, s: ClientState, token: string): Result<Body, Error>
  {
    Receive(IdentityUrl(env.username), env.server.reply(|s.sent|, IdentityOut(env, s, token)))
  }

  /** An identity status whose `hasPassword` is truthy. */
  predicate HasPassword(r: Result<Body, Error>)
  {
    r.Success? && BodyKey(Some(r.value), "hasPassword").Success? && Truthy(BodyKey(Some(r.value), "hasPassword").value)
  }

  lemma {:induction false} IdentityStepNext(env: Env, s: ClientState, token: string)
    requires Cleared(s) && StrField(s.anonymousSession, "accessToken") == Success(token)
    ensures var r := IdentityReply(env, s, token);
      var t := s.(sent := s.sent + [IdentityOut(env, s, token)]);
      AfterAnonymous(env, s) == if HasPassword(r) then AfterIdentity(env, t) else (IdentityOutcome(env, r), t)
  {
    var c := Call("GET", Some(IdentityUrl(env.username)), Some(BearerHeaders(s, token)), JsonPayload(JBool(true)));
    ClearedRequest(env, s, c);
  }

  lemma {:induction false} IdentityStepPassed(env: Env, s: ClientState, token: string)
    requires Cleared(s) && StrField(s.anonymousSession, "accessToken") == Success(token)
    requires HasPassword(IdentityReply(env, s, token))
    ensures var (o, t) := AfterAnonymous(env, s); ChainRun(env, s, o, t, [IdentityUrl(env.username), PasswordUrl, AuthenticatedUrl])
  {
    IdentityUrlIsDistinct(env.username);
    var out := IdentityOut(env, s, token);
    var s2 := s.(sent := s.sent + [out]);
    IdentityStepNext(env, s, token);
    assert ReplyTo(env, s2.sent, |s.sent|) == IdentityReply(env, s, token);
    PrependIdentity(env, s, s2, out);
  }

  /** The identity status, answered with a password, followed by the later stages. */
  lemma {:induction false} PrependIdentity(env: Env, s: ClientState, s2: ClientState, out: Outgoing)
    requires Cleared(s) && s2 == s.(sent := s.sent + [out]) && out.url == IdentityUrl(env.username)
    requires HasPassword(ReplyTo(env, s2.sent, |s.sent|))
    ensures var (o, t) := AfterIdentity(env, s2); ChainRun(env, s, o, t, [IdentityUrl(env.username), PasswordUrl, AuthenticatedUrl])
  {
    IdentityUrlIsDistinct(env.username);
    AfterIdentityRun(env, s2);
    var (o, t) := AfterIdentity(env, s2);
    ChainRunPrepend(env, s, s2, out, o, t, [PasswordUrl, AuthenticatedUrl]);
  }

  lemma {:induction false} IdentityStepStopped(env: Env, s: ClientState, token: string)
    requires Cleared(s) && StrField(s.anonymousSession, "accessToken") == Success(token)
    requires !HasPassword(IdentityReply(env, s, token))
    ensures var (o, t) := AfterAnonymous(env, s); ChainRun(env, s, o, t, [IdentityUrl(env.username), PasswordUrl, AuthenticatedUrl])
  {
    IdentityStepNext(env, s, token);
    IdentityStop(env, s, IdentityOut(env, s, token), IdentityReply(env, s, token), [IdentityUrl(env.username), PasswordUrl, AuthenticatedUrl]);
  }

  /** A stage that fails before sending anything. */
  lemma {:induction false} NoRequestStop(env: Env, s: ClientState, o: Outcome, urls: seq<string>)
    requires Cleared(s) && o.Fail? && o.error.RuntimeFault?
    ensures ChainRun(env, s, o, s, urls)
  {
    assert s.sent[|s.sent|..] == [];
  }

  /** The identity status was sent and its reply ends the chain: a wrapped transport
      error, a fault reading `hasPassword`, or the no-password error. */
  lemma {:induction false} IdentityStop(env: Env, s: ClientState, out: Outgoing, r: Result<Body, Error>, urls: seq<string>)
    requires Cleared(s) && out.url == IdentityUrl(env.username) && urls != [] && urls[0] == out.url
    requires r == Receive(out.url, env.server.reply(|s.sent|, out))
    requires !HasPassword(r)
    ensures var t := s.(sent := s.sent + [out]);
      ChainRun(env, s, IdentityOutcome(env, r), t, urls)
  {
    var k := |s.sent|;
    var t := s.(sent := s.sent + [out]);
    assert t.sent[k..] == [out];
    assert ReplyTo(env, t.sent, k) == r;
  }

  /** What `AfterAnonymous` returns when the identity status reply `r` ends the chain. */
  function IdentityOutcome(env: Env, r: Result<Body, Error>): Outcome
  {
    if r.Failure? then Fail(Wrap(env, r.error))
    else if BodyKey(Some(r.value), "hasPassword").Failure? then Fail(BodyKey(Some(r.value), "hasPassword").error)
    else Fail(RaiseAuthenticationError(NoPasswordMessage(env.username), None))
  }

  lemma {:induction false} AfterDeviceRun(env: Env, s: ClientState)
    requires Cleared(s)
    ensures var (o, t) := AfterDevice(env, s);
      ChainRun(env, s, o, t, [AnonymousUrl, IdentityUrl(env.username), PasswordUrl, AuthenticatedUrl])
  {
    var grant := StrField(s.deviceSession, "grant");
    if grant.Failure? {
      StrFieldFault(s.deviceSession, "grant");
      assert AfterDevice(env, s) == (Fail(grant.error), s);
      NoRequestStop(env, s, Fail(grant.error), [AnonymousUrl, IdentityUrl(env.username), PasswordUrl, AuthenticatedUrl]);
    } else if StepReply(env, s, AnonymousUrl, grant.value).Failure? {
      AnonymousStepFailed(env, s, grant.value);
    } else {
      AnonymousStepPassed(env, s, grant.value);
    }
  }

  /** The request a chain step sends to `url` from a cleared state with `bearer`. */
  function StepOut(s: ClientState, url: string, bearer: string): Outgoing
  {
    Outgoing("POST", url, BearerHeaders(s, bearer), JsonPayload(JBool(true)))
  }

  function StepReply(env: Env, s: ClientState, url: string, bearer: string): Result<Body, Error>
  {
    Receive(url, env.server.reply(|s.sent|, StepOut(s, url, bearer)))
  }

  lemma {:induction false} AnonymousStepFailed(env: Env, s: ClientState, grant: string)
    requires Cleared(s) && StrField(s.deviceSession, "grant") == Success(grant)
    requires StepReply(env, s, AnonymousUrl, grant).Failure?
    ensures var (o, t) := AfterDevice(env, s);
      ChainRun(env, s, o, t, [AnonymousUrl, IdentityUrl(env.username), PasswordUrl, AuthenticatedUrl])
  {
    var k := |s.sent|;
    IdentityUrlIsDistinct(env.username);
    var c := Call("POST", Some(AnonymousUrl), Some(BearerHeaders(s, grant)), JsonPayload(JBool(true)));
    ClearedRequest(env, s, c);
    var out := StepOut(s, AnonymousUrl, grant);
    var r := StepReply(env, s, AnonymousUrl, grant);
    var t := s.(sent := s.sent + [out]);
    assert AfterDevice(env, s) == (Fail(Wrap(env, r.error)), t);
    WrappedStepFailure(env, s, out, k);
  }

  lemma {:induction false} AnonymousStepPassed(env: Env, s: ClientState, grant: string)
    requires Cleared(s) && StrField(s.deviceSession, "grant") == Success(grant)
    requires StepReply(env, s, AnonymousUrl, grant).Success?
    ensures var (o, t) := AfterDevice(env, s);
      ChainRun(env, s, o, t, [AnonymousUrl, IdentityUrl(env.username), PasswordUrl, AuthenticatedUrl])
  {
    IdentityUrlIsDistinct(env.username);
    var out := StepOut(s, AnonymousUrl, grant);
    var r := StepReply(env, s, AnonymousUrl, grant);
    var s1 := s.(sent := s.sent + [out], anonymousSession := Some(r.value));
    AnonymousStepNext(env, s, grant);
    assert ReplyTo(env, s1.sent, |s.sent|) == r;
    PrependAnonymous(env, s, s1, out);
  }

  /** The anonymous session, answered successfully, followed by the later stages. */
  lemma {:induction false} PrependAnonymous(env: Env, s: ClientState, s1: ClientState, out: Outgoing)
    requires Cleared(s1) && s1.sent == s.sent + [out] && out.url == AnonymousUrl
    requires ReplyTo(env, s1.sent, |s.sent|).Success?
    ensures var (o, t) := AfterAnonymous(env, s1);
      ChainRun(env, s, o, t, [AnonymousUrl, IdentityUrl(env.username), PasswordUrl, AuthenticatedUrl])
  {
    IdentityUrlIsDistinct(env.username);
    AfterAnonymousRun(env, s1);
    var (o, t) := AfterAnonymous(env, s1);
    ChainRunPrepend(env, s, s1, out, o, t, [IdentityUrl(env.username), PasswordUrl, AuthenticatedUrl]);
  }

  lemma {:induction false} AnonymousStepNext(env: Env, s: ClientState, grant: string)
    requires Cleared(s) && StrField(s.deviceSession, "grant") == Success(grant)
    requires StepReply(env, s, AnonymousUrl, grant).Success?
    ensures var out := StepOut(s, AnonymousUrl, grant);
      AfterDevice(env, s) == AfterAnonymous(env, s.(sent := s.sent + [out], anonymousSession := Some(StepReply(env, s, AnonymousUrl, grant).value)))
  {
    var c := Call("POST", Some(AnonymousUrl), Some(BearerHeaders(s, grant)), JsonPayload(JBool(true)));
    ClearedRequest(env, s, c);
  }

  lemma {:induction false} AuthenticateRun(env: Env, s: ClientState)
    requires Cleared(s)
    ensures var (o, t) := Authenticate(env, s); ChainRun(env, s, o, t, ChainUrls(env, s))
  {
    var k := |s.sent|;
    IdentityUrlIsDistinct(env.username);
    if BodyTruthy(s.deviceSession) {
      assert Authenticate(env, s) == AfterDevice(env, s);
      AfterDeviceRun(env, s);
      return;
    }
    var c := Call("POST", Some(DevicesUrl), None, DevicePayload);
    ClearedRequest(env, s, c);
    var out := Outgoing(c.verb, DevicesUrl, BaseHeaders(s, c), c.payload);
    var r := Receive(DevicesUrl, env.server.reply(k, out));
    var t := s.(sent := s.sent + [out]);
    if r.Failure? {
      assert Authenticate(env, s) == (Fail(Wrap(env, r.error)), t);
      WrappedStepFailure(env, s, out, k);
      return;
    }
    var s0 := t.(deviceSession := Some(r.value));
    assert Authenticate(env, s) == AfterDevice(env, s0);
    AfterDeviceRun(env, s0);
    var (o, t') := AfterDevice(env, s0);
    ChainRunPrepend(env, s, s0, out, o, t', [AnonymousUrl, IdentityUrl(env.username), PasswordUrl, AuthenticatedUrl]);
  }

  /** The no-password error ends a chain run right after the identity status: no
      password request was sent and no token was written. */
  lemma {:induction false} NoPasswordStopsEarly(env: Env, s: ClientState, o: Outcome, t: ClientState)
    requires Cleared(s) && ChainRun(env, s, o, t, ChainUrls(env, s))
    requires o == Fail(RaiseAuthenticationError(NoPasswordMessage(env.username), None))
    ensures PasswordUrl !in Urls(t.sent[|s.sent|..]) && t.accessToken.None? && t.expiration.None?
  {
    IdentityUrlIsDistinct(env.username);
    var k := |s.sent|;
    var u := Urls(t.sent[k..]);
    var all := ChainUrls(env, s);
    var d := if BodyTruthy(s.deviceSession) then 0 else 1;
    assert u[|u| - 1] == IdentityUrl(env.username);
    assert all[..|u|] == u;
    assert |u| - 1 == d + 1 by {
      assert all[|u| - 1] == IdentityUrl(env.username);
      assert forall i :: 0 <= i < |all| && i != d + 1 ==> all[i] != IdentityUrl(env.username);
    }
    assert u == all[..d + 2];
  }

  /** Run from a cleared state, the chain requests a prefix of its URLs in order (all
      of them on success) and fails cleanly: no expiry is written, a token only when the
      expiry after it is malformed, a transport failure of the last request sent ends
      the chain with the chain-failed AuthenticationError carrying it, and exactly an identity status denying a password yields the no-password
      error, before any password request is sent and with no token written. */
  lemma {:induction false} ChainFailureFromClearedState(env: Env, s: ClientState)
    requires Cleared(s)
    ensures var (o, t) := Authenticate(env, s);
      && ChainRun(env, s, o, t, ChainUrls(env, s))
      && (o == Fail(RaiseAuthenticationError(NoPasswordMessage(env.username), None)) ==>
            PasswordUrl !in Urls(t.sent[|s.sent|..]) && t.accessToken.None? && t.expiration.None?)
  {
    AuthenticateRun(env, s);
    var (o, t) := Authenticate(env, s);
    if o == Fail(RaiseAuthenticationError(NoPasswordMessage(env.username), None)) {
      NoPasswordStopsEarly(env, s, o, t);
    }
  }

  /** What the caller of `request` gets back is about its own call: a body, or a
      RequestError for its URL, comes from the reply to the last request sent, which
      is the caller's request with the held token as its bearer, and which carries the
      shared headers themselves when the caller passed none. No RequestError of a
      refresh escapes `request`. */
  lemma {:induction false} RequestAnswersItsOwnCall(env: Env, s: ClientState, c: Call)
    ensures var (r, t) := Request(env, s, c);
      r.Success? || r.error.RequestError? ==>
        && c.url.Some? && |s.sent| < |t.sent|
        && var last := t.sent[|t.sent| - 1];
        && last.verb == c.verb && last.url == c.url.value && last.payload == c.payload
        && r == ReplyTo(env, t.sent, |t.sent| - 1)
        && (r.Failure? ==> r.error.url == c.url.value)
        && (c.headers.None? ==> last.headers == t.defaultHeaders)
        && (c.headers.Some? ==> last.headers == Authorize(c.headers.value, t.accessToken))
        && (t.accessToken.Some? && t.accessToken.value != [] ==>
              Authorization in last.headers && last.headers[Authorization] == "Bearer " + t.accessToken.value)
  {
    if Expired(env, s) {
      var cleared := s.(accessToken := None, expiration := None);
      AuthenticateRun(env, cleared);
      var (a, s1) := Authenticate(env, cleared);
      if a.Pass? && c.url.Some? {
        SendBearer(env, s1, c);
      }
    } else if c.url.Some? {
      SendBearer(env, s, c);
    }
  }

  /** The request `Send` appends carries the held token as its bearer, and the token is kept. */
  lemma {:induction false} SendBearer(env: Env, s: ClientState, c: Call)
    requires c.url.Some?
    ensures var t := Send(env, s, c).1;
      && t.accessToken == s.accessToken
      && |t.sent| == |s.sent| + 1
      && t.sent[|t.sent| - 1].headers == Authorize(BaseHeaders(s, c), s.accessToken)
  {
  }

  lemma {:induction false} UrlsPrefix(a: seq<Outgoing>, b: seq<Outgoing>)
    requires a <= b
    ensures Urls(a) <= Urls(b)
  {
    UrlsIndex(a);
    UrlsIndex(b);
  }

  /** With an expired token, `request` first runs the chain from the cleared state,
      whose own requests therefore see no expiry and are not refreshed again: the new
      requests are a prefix of the chain's URLs followed by the caller's, and the
      caller's request is sent exactly when the chain succeeds, after the new token
      and expiry were stored. */
  lemma {:induction false} RequestRefreshesWhenExpired(env: Env, s: ClientState, c: Call)
    requires Expired(env, s) && c.url.Some?
    ensures var (r, t) := Request(env, s, c);
      && s.sent <= t.sent
      && Urls(t.sent[|s.sent|..]) <= ChainUrls(env, s) + [c.url.value]
      && (r.Success? || r.error.RequestError? <==> Urls(t.sent[|s.sent|..]) == ChainUrls(env, s) + [c.url.value])
      && (r.Success? || r.error.RequestError? ==> StoredToken(t))
  {
    var cleared := s.(accessToken := None, expiration := None);
    AuthenticateRun(env, cleared);
    ChainFromClearedState(env, cleared);
    assert ChainUrls(env, cleared) == ChainUrls(env, s);
    var (a, s1) := Authenticate(env, cleared);
    assert Request(env, s, c) == (if a.Fail? then (Failure(a.error), s1) else Send(env, s1, c));
    SendAfterChain(env, s, a, s1, c);
    if a.Pass? {
      assert StoredToken(s1);
    }
  }

  /** The caller's request after a chain run: sent exactly when the chain succeeded. */
  lemma {:induction false} SendAfterChain(env: Env, s: ClientState, a: Outcome, s1: ClientState, c: Call)
    requires c.url.Some? && ChainRun(env, s.(accessToken := None, expiration := None), a, s1, ChainUrls(env, s))
    ensures var (r, t) := if a.Fail? then (Failure(a.error), s1) else Send(env, s1, c);
      && s.sent <= t.sent
      && Urls(t.sent[|s.sent|..]) <= ChainUrls(env, s) + [c.url.value]
      && (r.Success? || r.error.RequestError? <==> Urls(t.sent[|s.sent|..]) == ChainUrls(env, s) + [c.url.value])
  {
    var k := |s.sent|;
    var u := ChainUrls(env, s);
    if a.Pass? {
      var (r, t) := Send(env, s1, c);
      var last := t.sent[|t.sent| - 1];
      assert t.sent == s1.sent + [last];
      assert t.sent[k..] == s1.sent[k..] + [last];
      UrlsAppend(s1.sent[k..], [last]);
    } else {
      assert |Urls(s1.sent[k..])| <= |u|;
    }
  }

  /** `connect` from a cleared state registers the device first and, when that
      registration returned a truthy session, never again: the chain it runs next skips
      its own registration. A successful `connect` ends with the web player fetch. */
  lemma {:induction false} ConnectRegistersDeviceOnce(env: Env, s: ClientState)
    requires Cleared(s)
    ensures var (o, t) := Connect(env, s); var k := |s.sent|;
      && s.sent <= t.sent
      && (k < |t.sent| ==> t.sent[k].url == DevicesUrl)
      && (o.Pass? ==>
            && k < |t.sent| && ReplyTo(env, t.sent, k).Success?
            && var again := if BodyTruthy(Some(ReplyTo(env, t.sent, k).value)) then [] else [DevicesUrl];
            && [DevicesUrl] + again + [AnonymousUrl, IdentityUrl(env.username), PasswordUrl, AuthenticatedUrl] <= Urls(t.sent[k..])
            && t.sent[|t.sent| - 1].url == PlayerUrl)
  {
    var k := |s.sent|;
    var c := Call("POST", Some(DevicesUrl), None, DevicePayload);
    ClearedRequest(env, s, c);
    var (o0, s0) := CreateDeviceSession(env, s);
    assert s0.sent == s.sent + [s0.sent[k]] && s0.sent[k].url == DevicesUrl;
    if o0.Fail? {
      assert Connect(env, s) == (o0, s0);
      return;
    }
    var (o1, s1) := Authenticate(env, s0);
    assert s0.sent <= s1.sent;
    if o1.Fail? {
      assert Connect(env, s) == (o1, s1);
      return;
    }
    var p := Call("GET", Some(PlayerUrl), None, NoPayload);
    var (r2, t) := Request(env, s1, p);
    assert s1.sent <= t.sent;
    if r2.Failure? {
      assert Connect(env, s) == (Fail(r2.error), t);
      return;
    }
    assert Connect(env, s) == (Pass, t);
    ConnectSucceeds(env, s0, s1, p, k);
  }

  lemma {:induction false} ChainAfterRegistration(env: Env, s0: ClientState, s1: ClientState, k: nat)
    requires Cleared(s0) && k + 1 == |s0.sent| && s0.sent[k].url == DevicesUrl
    requires Authenticate(env, s0) == (Pass, s1)
    ensures s0.sent <= s1.sent && Urls(s1.sent[k..]) == [DevicesUrl] + ChainUrls(env, s0)
  {
    AuthenticateRun(env, s0);
    assert s1.sent[k..] == [s0.sent[k]] + s1.sent[k + 1..];
    UrlsAppend([s0.sent[k]], s1.sent[k + 1..]);
  }

  lemma {:induction false} ConnectSucceeds(env: Env, s0: ClientState, s1: ClientState, p: Call, k: nat)
    requires Cleared(s0) && k + 1 == |s0.sent| && s0.sent[k].url == DevicesUrl
    requires s0.deviceSession.Some? && ReplyTo(env, s0.sent, k) == Success(s0.deviceSession.value)
    requires Authenticate(env, s0) == (Pass, s1) && p == Call("GET", Some(PlayerUrl), None, NoPayload)
    requires Request(env, s1, p).0.Success?
    ensures var t := Request(env, s1, p).1;
      && k < |t.sent| && ReplyTo(env, t.sent, k).Success?
      && var again := if BodyTruthy(Some(ReplyTo(env, t.sent, k).value)) then [] else [DevicesUrl];
      && [DevicesUrl] + again + [AnonymousUrl, IdentityUrl(env.username), PasswordUrl, AuthenticatedUrl] <= Urls(t.sent[k..])
      && t.sent[|t.sent| - 1].url == PlayerUrl
  {
    ChainAfterRegistration(env, s0, s1, k);
    RequestAnswersItsOwnCall(env, s1, p);
    var t := Request(env, s1, p).1;
    assert s1.sent <= t.sent;
    PrefixUrlsFrom(s0.sent, s1.sent, t.sent, k);
    assert ReplyTo(env, t.sent, k) == ReplyTo(env, s0.sent, k);
    var again := if BodyTruthy(s0.deviceSession) then [] else [DevicesUrl];
    assert ChainUrls(env, s0) == again + [AnonymousUrl, IdentityUrl(env.username), PasswordUrl, AuthenticatedUrl];
  }

  lemma {:induction false} PrefixUrlsFrom(a: seq<Outgoing>, b: seq<Outgoing>, c: seq<Outgoing>, k: nat)
    requires k < |a| && a <= b <= c
    ensures c[k] == a[k] && Urls(b[k..]) <= Urls(c[k..])
  {
    UrlsPrefix(b[k..], c[k..]);
  }

  // ---------------------------------------------------------------------------
  // The chain as written

  /** The `except RequestError` around the chain as written (aiosxm/client.py:194-197):
      the one-argument raise inside it raises a TypeError whose context is the RequestError. */
  function WrapAsWritten(env: Env, e: Error): (r: Error)
    ensures e.RequestError? ==> !r.AuthenticationError? && r.RuntimeFault? && r.context == Some(e)
    ensures !e.RequestError? ==> r == e
  {
    if e.RequestError? then RaiseAuthenticationErrorAsWritten(ChainFailedMessage(env.username), Some(e)) else e
  }

  /** `_authenticate` as written: the same steps as `Authenticate`, with both raises
      of AuthenticationError evaluated as the source has them. The steps' own requests
      refresh through `Request`, which the chain never triggers: its states hold no expiry. */
  function AuthenticateAsWritten(env: Env, s: ClientState): (res: (Outcome, ClientState))
  {
    var (o0, s0) := if BodyTruthy(s.deviceSession) then (Pass, s) else CreateDeviceSession(env, s);
    if o0.Fail? then (Fail(WrapAsWritten(env, o0.error)), s0) else AfterDeviceAsWritten(env, s0)
  }

  function AfterDeviceAsWritten(env: Env, s0: ClientState): (res: (Outcome, ClientState))
  {
    var grant := StrField(s0.deviceSession, "grant");
    if grant.Failure? then (Fail(grant.error), s0) else
    var (o1, s1) := CreateAnonymousSession(env, s0, grant.value);
    if o1.Fail? then (Fail(WrapAsWritten(env, o1.error)), s1) else AfterAnonymousAsWritten(env, s1)
  }

  /** Line 188 as written: the no-password raise is a TypeError with no context. */
  function AfterAnonymousAsWritten(env: Env, s1: ClientState): (res: (Outcome, ClientState))
  {
    var anonymous := StrField(s1.anonymousSession, "accessToken");
    if anonymous.Failure? then (Fail(anonymous.error), s1) else
    var (r2, s2) := GetIdentityStatus(env, s1, anonymous.value);
    if r2.Failure? then (Fail(WrapAsWritten(env, r2.error)), s2) else
    var hasPassword := BodyKey(Some(r2.value), "hasPassword");
    if hasPassword.Failure? then (Fail(hasPassword.error), s2) else
    if !Truthy(hasPassword.value) then (Fail(RaiseAuthenticationErrorAsWritten(NoPasswordMessage(env.username), None)), s2) else
    AfterIdentityAsWritten(env, s2)
  }

  function AfterIdentityAsWritten(env: Env, s2: ClientState): (res: (Outcome, ClientState))
  {
    var anonymous := StrField(s2.anonymousSession, "accessToken");
    if anonymous.Failure? then (Fail(anonymous.error), s2) else
    var (o3, s3) := AuthenticateWithPassword(env, s2, anonymous.value);
    if o3.Fail? then (Fail(WrapAsWritten(env, o3.error)), s3) else AfterPasswordAsWritten(env, s3)
  }

  function AfterPasswordAsWritten(env: Env, s3: ClientState): (res: (Outcome, ClientState))
  {
    var authGrant := StrField(s3.authenticationResponse, "grant");
    if authGrant.Failure? then (Fail(authGrant.error), s3) else
    var (o4, s4) := CreateAuthenticatedSession(env, s3, authGrant.value);
    if o4.Fail? then (Fail(WrapAsWritten(env, o4.error)), s4) else StoreToken(s4)
  }

  /** `request` as written: an expired token runs the as-written chain. */
  function RequestAsWritten(env: Env, s: ClientState, c: Call): (res: (Result<Body, Error>, ClientState))
  {
    if Expired(env, s) then
      var (a, s1) := AuthenticateAsWritten(env, s.(accessToken := None, expiration := None));
      if a.Fail? then (Failure(a.error), s1) else Send(env, s1, c)
    else
      Send(env, s, c)
  }

  /** An error as the code raises it where the package means to raise `e`: every
      AuthenticationError becomes the TypeError of the failed constructor call. */
  function AsRaised(e: Error): Error
  {
    if e.AuthenticationError? then RaiseAuthenticationErrorAsWritten(e.message, e.originalException) else e
  }

  function AsRaisedRun(res: (Outcome, ClientState)): (Outcome, ClientState)
  {
    if res.0.Fail? then (Fail(AsRaised(res.0.error)), res.1) else res
  }

  /** Without an expiry `request` does not refresh, so its only errors are its own:
      the TypeError of a missing URL, or a RequestError. */
  lemma {:induction false} UnexpiredRequestErrors(env: Env, s: ClientState, c: Call)
    requires !Expired(env, s)
    ensures Request(env, s, c).0.Failure? ==>
      Request(env, s, c).0.error.RequestError? || Request(env, s, c).0.error == RuntimeFault(TypeError, None)
  {
    assert Request(env, s, c) == Send(env, s, c);
  }

  lemma {:induction false} AfterPasswordAsWrittenAgrees(env: Env, s: ClientState)
    requires s.expiration.None?
    ensures AfterPasswordAsWritten(env, s) == AsRaisedRun(AfterPassword(env, s))
  {
    var grant := StrField(s.authenticationResponse, "grant");
    StrFieldFault(s.authenticationResponse, "grant");
    if grant.Success? {
      UnexpiredRequestErrors(env, s, Call("POST", Some(AuthenticatedUrl), Some(BearerHeaders(s, grant.value)), JsonPayload(JBool(true))));
      var (o4, s4) := CreateAuthenticatedSession(env, s, grant.value);
      StrFieldFault(s4.authenticatedSession, "accessToken");
    }
  }

  lemma {:induction false} AfterIdentityAsWrittenAgrees(env: Env, s: ClientState)
    requires s.expiration.None?
    ensures AfterIdentityAsWritten(env, s) == AsRaisedRun(AfterIdentity(env, s))
  {
    var anonymous := StrField(s.anonymousSession, "accessToken");
    StrFieldFault(s.anonymousSession, "accessToken");
    if anonymous.Success? {
      UnexpiredRequestErrors(env, s, Call("POST", Some(PasswordUrl), Some(BearerHeaders(s, anonymous.value)), PasswordPayload(env)));
      var (o3, s3) := AuthenticateWithPassword(env, s, anonymous.value);
      if o3.Pass? {
        AfterPasswordAsWrittenAgrees(env, s3);
      }
    }
  }

  lemma {:induction false} AfterAnonymousAsWrittenAgrees(env: Env, s: ClientState)
    requires s.expiration.None?
    ensures AfterAnonymousAsWritten(env, s) == AsRaisedRun(AfterAnonymous(env, s))
  {
    var anonymous := StrField(s.anonymousSession, "accessToken");
    StrFieldFault(s.anonymousSession, "accessToken");
    if anonymous.Success? {
      UnexpiredRequestErrors(env, s, Call("GET", Some(IdentityUrl(env.username)), Some(BearerHeaders(s, anonymous.value)), JsonPayload(JBool(true))));
      var (r2, s2) := GetIdentityStatus(env, s, anonymous.value);
      if r2.Success? {
        AfterIdentityAsWrittenAgrees(env, s2);
      }
    }
  }

  lemma {:induction false} AfterDeviceAsWrittenAgrees(env: Env, s: ClientState)
    requires s.expiration.None?
    ensures AfterDeviceAsWritten(env, s) == AsRaisedRun(AfterDevice(env, s))
  {
    var grant := StrField(s.deviceSession, "grant");
    StrFieldFault(s.deviceSession, "grant");
    if grant.Success? {
      UnexpiredRequestErrors(env, s, Call("POST", Some(AnonymousUrl), Some(BearerHeaders(s, grant.value)), JsonPayload(JBool(true))));
      var (o1, s1) := CreateAnonymousSession(env, s, grant.value);
      if o1.Pass? {
        AfterAnonymousAsWrittenAgrees(env, s1);
      }
    }
  }

  /** From a state without an expiry, the chain as written takes the same steps and
      leaves the same state as the intended one; it differs only in raising the
      TypeError of the failed constructor call wherever an AuthenticationError is meant. */
  lemma {:induction false} AuthenticateAsWrittenAgrees(env: Env, s: ClientState)
    requires s.expiration.None?
    ensures AuthenticateAsWritten(env, s) == AsRaisedRun(Authenticate(env, s))
  {
    if !BodyTruthy(s.deviceSession) {
      UnexpiredRequestErrors(env, s, Call("POST", Some(DevicesUrl), None, DevicePayload));
      var (o0, s0) := CreateDeviceSession(env, s);
      if o0.Pass? {
        AfterDeviceAsWrittenAgrees(env, s0);
      }
    } else {
      AfterDeviceAsWrittenAgrees(env, s);
    }
  }

  /** `request` as written agrees with the intended one except that a failed refresh
      hands its caller the TypeError instead of the AuthenticationError. */
  lemma {:induction false} RequestAsWrittenAgrees(env: Env, s: ClientState, c: Call)
    ensures var (r, t) := Request(env, s, c);
      RequestAsWritten(env, s, c) == (if r.Failure? then Failure(AsRaised(r.error)) else r, t)
  {
    if Expired(env, s) {
      AuthenticateAsWrittenAgrees(env, s.(accessToken := None, expiration := None));
    } else {
      UnexpiredRequestErrors(env, s, c);
    }
  }

  /** Finding at line 188: as written, an identity status denying a password ends the
      chain with a TypeError, not the no-password AuthenticationError, after the same requests. */
  lemma {:induction false} NoPasswordAsWritten(env: Env, s: ClientState)
    requires Cleared(s)
    ensures var (o, t) := AuthenticateAsWritten(env, s); var k := |s.sent|;
      && t == Authenticate(env, s).1
      && (k < |t.sent| && t.sent[|t.sent| - 1].url == IdentityUrl(env.username) && DeniesPassword(ReplyTo(env, t.sent, |t.sent| - 1)) ==>
            o == Fail(RuntimeFault(TypeError, None)))
  {
    AuthenticateFailureFacts(env, s);
    AuthenticateAsWrittenAgrees(env, s);
    var (o, t) := Authenticate(env, s);
    RaisedRun(env, |s.sent|, o, t);
  }

  /** Finding at line 197: as written, a transport failure of the chain's last request
      surfaces as a TypeError whose context is the RequestError, and the chain never
      raises an AuthenticationError at all. */
  lemma {:induction false} ChainFailureAsWritten(env: Env, s: ClientState)
    requires Cleared(s)
    ensures var (o, t) := AuthenticateAsWritten(env, s); var k := |s.sent|;
      && t == Authenticate(env, s).1
      && (k < |t.sent| && ReplyTo(env, t.sent, |t.sent| - 1).Failure? ==>
            && ReplyTo(env, t.sent, |t.sent| - 1).error.RequestError?
            && o == Fail(RuntimeFault(TypeError, Some(ReplyTo(env, t.sent, |t.sent| - 1).error))))
      && (o.Fail? ==> !o.error.AuthenticationError?)
  {
    AuthenticateFailureFacts(env, s);
    AuthenticateAsWrittenAgrees(env, s);
    var (o, t) := Authenticate(env, s);
    RaisedRun(env, |s.sent|, o, t);
  }

  /** The two failure promises of `AuthenticateRun` that the raise changes. */
  lemma {:induction false} AuthenticateFailureFacts(env: Env, s: ClientState)
    requires Cleared(s)
    ensures var (o, t) := Authenticate(env, s);
      WrapsLastFailure(env, |s.sent|, o, t) && NoPasswordExactly(env, |s.sent|, o, t)
  {
    AuthenticateRun(env, s);
  }

  /** What the chain's failure contract becomes once every AuthenticationError is
      raised as the TypeError. */
  lemma {:induction false} RaisedRun(env: Env, k: nat, o: Outcome, t: ClientState)
    requires WrapsLastFailure(env, k, o, t) && NoPasswordExactly(env, k, o, t)
    ensures var a := AsRaisedRun((o, t)).0;
      && (k < |t.sent| && t.sent[|t.sent| - 1].url == IdentityUrl(env.username) && DeniesPassword(ReplyTo(env, t.sent, |t.sent| - 1)) ==>
            a == Fail(RuntimeFault(TypeError, None)))
      && (k < |t.sent| && ReplyTo(env, t.sent, |t.sent| - 1).Failure? ==>
            && ReplyTo(env, t.sent, |t.sent| - 1).error.RequestError?
            && a == Fail(RuntimeFault(TypeError, Some(ReplyTo(env, t.sent, |t.sent| - 1).error))))
      && (a.Fail? ==> !a.error.AuthenticationError?)
  {
  }

  /** The same finding as the caller of `request` sees it: with an expired token and no
      cached device session, a device registration answered with status 500 reaches
      the caller as the chain-failed AuthenticationError in the intended code, and as
      an unwrapped TypeError as written. */
  lemma {:induction false} RefreshFailureAsWritten(env: Env, s: ClientState, c: Call, resp: Response)
    requires Expired(env, s) && !BodyTruthy(s.deviceSession) && resp.status == 500
    requires env.server.reply(|s.sent|, Outgoing("POST", DevicesUrl, s.defaultHeaders, DevicePayload)) == Delivered(resp)
    ensures Request(env, s, c).0 == Failure(AuthenticationError(ChainFailedMessage(env.username), Some(RequestError(DevicesUrl, BadStatus(500)))))
    ensures RequestAsWritten(env, s, c).0 == Failure(RuntimeFault(TypeError, Some(RequestError(DevicesUrl, BadStatus(500)))))
  {
    var cleared := s.(accessToken := None, expiration := None);
    var device := Call("POST", Some(DevicesUrl), None, DevicePayload);
    ClearedRequest(env, cleared, device);
    assert Request(env, cleared, device).0 == Failure(RequestError(DevicesUrl, BadStatus(500)));
    assert CreateDeviceSession(env, cleared).0 == Fail(RequestError(DevicesUrl, BadStatus(500)));
    assert Authenticate(env, cleared).0 == Fail(Wrap(env, RequestError(DevicesUrl, BadStatus(500))));
    var (a, s1) := Authenticate(env, cleared);
    assert a == Fail(AuthenticationError(ChainFailedMessage(env.username), Some(RequestError(DevicesUrl, BadStatus(500)))));
    RequestAsWrittenAgrees(env, s, c);
  }
}
