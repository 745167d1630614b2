/** The login-link flow of app/api/v1/routers/auth.py.

    `request_login` mints a login token for an e-mail address, keeps it in the
    store under `login:{email}` for 30 minutes and queues the e-mail carrying
    the link. `verify` decodes a presented token, compares it with the entry
    for its subject, deletes a key, mints an access token and a refresh token,
    records the refresh token under `refresh:{email}` and answers with a
    redirect that sets both as cookies.

    The handlers that change the store are methods over a `Store`; each is
    specified by a function from the store state before the call to the state
    after it and the response, and the lemmas below are about those
    functions. The clock of the store is the clock the tokens are minted
    with. */
module Auth {
  import opened Outcomes
  import opened KvStore
  import opened JwtCodec
  import opened StoredValues

  const JWT_ALGORITHM: string := "HS256"

  const LOGIN_TOKEN_EXPIRATION_MINUTES: nat := 30
  const ACCESS_TOKEN_EXPIRATION_HOURS: nat := 1
  const REFRESH_TOKEN_EXPIRATION_DAYS: nat := 7

  /** Lifetimes in seconds. */
  const LOGIN_TTL: int := LOGIN_TOKEN_EXPIRATION_MINUTES * 60
  const ACCESS_TTL: int := ACCESS_TOKEN_EXPIRATION_HOURS * 60 * 60
  const REFRESH_TTL: int := REFRESH_TOKEN_EXPIRATION_DAYS * 24 * 60 * 60

  /** The settings the router reads: the HMAC secret and the web app's URL. */
  datatype Settings = Settings(jwtSecretKey: string, webAppUrl: string)

  /** The failure of `verify_token`, whatever PyJWT raised. */
  const INVALID_TOKEN: HttpError := HttpError(UNAUTHORIZED, Message("Invalid token"))

  /** The failure of `verify` when the stored login token is not the one presented. */
  const TOKEN_MISMATCH: HttpError := HttpError(BAD_REQUEST, Plain("Invalid token"))

  function LoginKey(email: string): (k: string) { "login:" + email }

  function RefreshKey(email: string): (k: string) { "refresh:" + email }

  predicate IsLoginKey(k: string) { |k| >= 6 && k[..6] == "login:" }

  lemma RefreshKeyIsNotLoginKey(email: string)
    ensures !IsLoginKey(RefreshKey(email))
  {
    assert RefreshKey(email)[1] == 'e';
  }

  // ---------------------------------------------------------------------------
  // Token helpers
  // ---------------------------------------------------------------------------

  function SigningKey(settings: Settings): (key: Key) { Secret(settings.jwtSecretKey) }

  /** `generate_login_token(email)` at time `now` */
  function GenerateLoginToken(settings: Settings, email: string, now: int): (t: Token)
    ensures t.Signed? && t.sub == email && t.exp == now + LOGIN_TTL
  {
    Encode(email, now + LOGIN_TTL, SigningKey(settings), JWT_ALGORITHM)
  }

  /** `generate_access_token(email)` at time `now` */
  function GenerateAccessToken(settings: Settings, email: string, now: int): (t: Token)
    ensures t.Signed? && t.sub == email && t.exp == now + ACCESS_TTL
  {
    Encode(email, now + ACCESS_TTL, SigningKey(settings), JWT_ALGORITHM)
  }

  /** The token `generate_refresh_token(email)` mints at time `now`. */
  function RefreshToken(settings: Settings, email: string, now: int): (t: Token)
    ensures t.Signed? && t.sub == email && t.exp == now + REFRESH_TTL
  {
    Encode(email, now + REFRESH_TTL, SigningKey(settings), JWT_ALGORITHM)
  }

  /** `verify_token(token)` at time `now`: the subject of a token this
      router signed, or 401 "Invalid token" for every PyJWT failure, an
      expired token included. */
  function VerifyToken(settings: Settings, t: Token, now: int): (r: Result<string, HttpError>)
    ensures r.Ok? <==> t.Signed? && t.alg == JWT_ALGORITHM && t.key == SigningKey(settings) && now < t.exp
    ensures r.Ok? ==> r.value == t.sub
    ensures r.Err? ==> r.error == INVALID_TOKEN
  {
    match Decode(t, SigningKey(settings), [JWT_ALGORITHM], now)
    case Ok(claims) => Ok(claims.sub)
    case Err(_) => Err(INVALID_TOKEN)
  }

  /** Every token the router mints verifies, with its own subject, until its
      `exp` and not after. */
  lemma MintedTokensVerify(settings: Settings, email: string, now: int, at: int)
    ensures VerifyToken(settings, GenerateLoginToken(settings, email, now), at) ==
              if at < now + LOGIN_TTL then Ok(email) else Err(INVALID_TOKEN)
    ensures VerifyToken(settings, GenerateAccessToken(settings, email, now), at) ==
              if at < now + ACCESS_TTL then Ok(email) else Err(INVALID_TOKEN)
    ensures VerifyToken(settings, RefreshToken(settings, email, now), at) ==
              if at < now + REFRESH_TTL then Ok(email) else Err(INVALID_TOKEN)
  {
  }

  /** On this path an expired token cannot be told apart from a forged one:
      both give the same 401 "Invalid token". */
  lemma ExpiredLooksForged(settings: Settings, expired: Token, forged: Token, now: int)
    requires expired.Signed? && expired.key == SigningKey(settings) && expired.alg == JWT_ALGORITHM
    requires expired.exp <= now
    requires forged.Signed? && forged.key != SigningKey(settings) && now < forged.exp
    ensures Decode(expired, SigningKey(settings), [JWT_ALGORITHM], now) == Err(ExpiredSignature)
    ensures Decode(forged, SigningKey(settings), [JWT_ALGORITHM], now) != Err(ExpiredSignature)
    ensures VerifyToken(settings, expired, now) == VerifyToken(settings, forged, now) == Err(INVALID_TOKEN)
  {
  }

  // ---------------------------------------------------------------------------
  // The verification e-mail
  // ---------------------------------------------------------------------------

  /** The background task `request_login` queues. */
  datatype MailTask = SendVerificationEmail(to: string, token: Token)

  datatype Email = Email(to: string, subject: string, body: string)

  const VERIFY_PATH: string := "/auth/verify?token="

  /** The link in the e-mail. */
  function LoginUrl(settings: Settings, token: Token): (url: string)
    ensures |url| == |settings.webAppUrl| + |VERIFY_PATH| + |Compact(token)|
    ensures url[..|settings.webAppUrl|] == settings.webAppUrl
    ensures url[|settings.webAppUrl|..|settings.webAppUrl| + |VERIFY_PATH|] == VERIFY_PATH
    ensures url[|settings.webAppUrl| + |VERIFY_PATH|..] == Compact(token)
  {
    settings.webAppUrl + VERIFY_PATH + Compact(token)
  }

  const MAIL_SUBJECT: string := "Log in to Connector"
  const MAIL_INTRO: string := "Click the link below to log in:\n\n"

  /** The message `send_verification_email` hands to the mail service: to the
      queued address, with the link on its own line after the greeting and
      the 30-minute lifetime after it. */
  function VerificationEmail(settings: Settings, task: MailTask): (mail: Email)
    ensures mail.to == task.to && mail.subject == MAIL_SUBJECT
    ensures var url := LoginUrl(settings, task.token);
            |mail.body| > |MAIL_INTRO| + |url| &&
            mail.body[..|MAIL_INTRO|] == MAIL_INTRO &&
            mail.body[|MAIL_INTRO|..|MAIL_INTRO| + |url|] == url &&
            mail.body[|MAIL_INTRO| + |url|..] ==
              "\n\nThis link will expire in " + NatText(LOGIN_TOKEN_EXPIRATION_MINUTES) + " minutes."
  {
    var url := LoginUrl(settings, task.token);
    var tail := "\n\nThis link will expire in " + NatText(LOGIN_TOKEN_EXPIRATION_MINUTES) + " minutes.";
    assert (MAIL_INTRO + url + tail)[..|MAIL_INTRO|] == MAIL_INTRO;
    assert (MAIL_INTRO + url + tail)[|MAIL_INTRO|..|MAIL_INTRO| + |url|] == url;
    assert (MAIL_INTRO + url + tail)[|MAIL_INTRO| + |url|..] == tail;
    Email(task.to, MAIL_SUBJECT, MAIL_INTRO + url + tail)
  }

  /** The lifetime the e-mail announces is the login token's: "30" minutes. */
  lemma AnnouncedLifetime()
    ensures NatText(LOGIN_TOKEN_EXPIRATION_MINUTES) == "30" && LOGIN_TTL == 30 * 60
  {
  }

  // ---------------------------------------------------------------------------
  // request_login
  // ---------------------------------------------------------------------------

  datatype LoginStep = LoginStep(state: State<Value>, message: string, task: MailTask)

  /** `request_login` for the validated address `email`: the store after the
      call, the reply, and the queued e-mail. The reply does not wait for the
      e-mail, so it is the same whatever happens to the delivery. */
  function RequestLoginSpec(settings: Settings, s: State<Value>, email: string): (step: LoginStep)
    ensures step.message == "Login email sent"
    ensures step.task.to == email && step.task.token == GenerateLoginToken(settings, email, s.now)
    ensures Lookup(step.state, LoginKey(email)) == Some(Tok(step.task.token))
    ensures LoginKey(email) in step.state.entries
    ensures step.state.entries[LoginKey(email)].expiresAt == step.task.token.exp == s.now + LOGIN_TTL
    ensures forall k :: k != LoginKey(email) ==> Lookup(step.state, k) == Lookup(s, k)
    ensures step.state.now == s.now
  {
    var token := GenerateLoginToken(settings, email, s.now);
    LoginStep(Put(s, LoginKey(email), LOGIN_TTL, Tok(token)), "Login email sent", SendVerificationEmail(email, token))
  }

  /** `request_login`, updating the store in place. */
  method RequestLogin(settings: Settings, store: Store<Value>, email: string) returns (message: string, task: MailTask)
    modifies store
    ensures LoginStep(store.Snapshot(), message, task) == RequestLoginSpec(settings, old(store.Snapshot()), email)
  {
    var token := GenerateLoginToken(settings, email, store.now);
    store.SetEx(LoginKey(email), LOGIN_TOKEN_EXPIRATION_MINUTES * 60, Tok(token));
    task := SendVerificationEmail(email, token);
    message := "Login email sent";
  }

  /** The link in the queued e-mail carries exactly the token now stored
      for the address. */
  lemma EmailedLinkCarriesStoredToken(settings: Settings, s: State<Value>, email: string)
    ensures var step := RequestLoginSpec(settings, s, email);
            var url := LoginUrl(settings, step.task.token);
            VerificationEmail(settings, step.task).to == email &&
            url == settings.webAppUrl + VERIFY_PATH + Compact(step.task.token) &&
            Lookup(step.state, LoginKey(email)) == Some(Tok(step.task.token))
  {
  }

  // ---------------------------------------------------------------------------
  // generate_refresh_token
  // ---------------------------------------------------------------------------

  datatype RefreshStep = RefreshStep(state: State<Value>, token: Token)

  /** `generate_refresh_token(email)`: the token, and the store in which it
      is the one refresh token recorded for the address. */
  function RefreshSpec(settings: Settings, s: State<Value>, email: string): (step: RefreshStep)
    ensures step.token == RefreshToken(settings, email, s.now)
    ensures Lookup(step.state, RefreshKey(email)) == Some(Tok(step.token))
    ensures RefreshKey(email) in step.state.entries
    ensures step.state.entries[RefreshKey(email)].expiresAt == step.token.exp
    ensures forall k :: k != RefreshKey(email) ==> Lookup(step.state, k) == Lookup(s, k)
    ensures step.state.now == s.now
  {
    var token := RefreshToken(settings, email, s.now);
    RefreshStep(Put(s, RefreshKey(email), REFRESH_TTL, Tok(token)), token)
  }

  method GenerateRefreshToken(settings: Settings, store: Store<Value>, email: string) returns (token: Token)
    modifies store
    ensures RefreshStep(store.Snapshot(), token) == RefreshSpec(settings, old(store.Snapshot()), email)
  {
    token := RefreshToken(settings, email, store.now);
    store.SetEx(RefreshKey(email), REFRESH_TOKEN_EXPIRATION_DAYS * 24 * 60 * 60, Tok(token));
  }

  // ---------------------------------------------------------------------------
  // verify
  // ---------------------------------------------------------------------------

  datatype Cookie = Cookie(name: string, value: Token, maxAge: int)

  /** The redirect to the web app with the two credential cookies. */
  datatype Redirect = Redirect(url: string, cookies: seq<Cookie>)

  datatype VerifyStep = VerifyStep(state: State<Value>, outcome: Result<Redirect, HttpError>)

  /** `verify(token)` as written: after a match it deletes the key built from
      the TOKEN, `login:{token}`, and not the entry it just compared. */
  function VerifySpec(settings: Settings, s: State<Value>, presented: Token): (step: VerifyStep)
    ensures step.outcome.Ok? <==>
              VerifyToken(settings, presented, s.now).Ok? && Lookup(s, LoginKey(presented.sub)) == Some(Tok(presented))
    ensures step.outcome.Err? ==> step.state == s
    ensures step.state.now == s.now
  {
    match VerifyToken(settings, presented, s.now)
    case Err(e) => VerifyStep(s, Err(e))
    case Ok(email) =>
      if Lookup(s, LoginKey(email)) != Some(Tok(presented)) then VerifyStep(s, Err(TOKEN_MISMATCH))
      else
        var afterDelete := Remove(s, LoginKey(Compact(presented)));
        var access := GenerateAccessToken(settings, email, afterDelete.now);
        var refresh := RefreshSpec(settings, afterDelete, email);
        VerifyStep(refresh.state, Ok(Redirect(settings.webAppUrl + "/", [
          Cookie("access_token", access, ACCESS_TTL),
          Cookie("refresh_token", refresh.token, REFRESH_TTL)])))
  }

  /** `verify(token)`, updating the store in place. */
  method Verify(settings: Settings, store: Store<Value>, presented: Token) returns (outcome: Result<Redirect, HttpError>)
    modifies store
    ensures VerifyStep(store.Snapshot(), outcome) == VerifySpec(settings, old(store.Snapshot()), presented)
  {
    var verified := VerifyToken(settings, presented, store.now);
    if verified.Err? {
      return Err(verified.error);
    }
    var email := verified.value;
    var isToken := store.Get(LoginKey(email)) == Some(Tok(presented));
    if !isToken {
      return Err(TOKEN_MISMATCH);
    }
    store.Delete(LoginKey(Compact(presented)));
    var access := GenerateAccessToken(settings, email, store.now);
    var refresh := GenerateRefreshToken(settings, store, email);
    outcome := Ok(Redirect(settings.webAppUrl + "/", [
      Cookie("access_token", access, ACCESS_TOKEN_EXPIRATION_HOURS * 60 * 60),
      Cookie("refresh_token", refresh, REFRESH_TOKEN_EXPIRATION_DAYS * 24 * 60 * 60)]));
  }

  /** `verify` succeeds exactly when the token decodes and is the one stored
      for its subject. It fails with 401 when the token does not decode and
      with 400 when the stored entry is absent or different; a failure
      leaves the store as it was, so no token is minted and no refresh
      entry is written. */
  lemma VerifyOutcome(settings: Settings, s: State<Value>, presented: Token)
    ensures var step := VerifySpec(settings, s, presented);
            step.outcome.Ok? <==>
              VerifyToken(settings, presented, s.now).Ok? && Lookup(s, LoginKey(presented.sub)) == Some(Tok(presented))
    ensures var step := VerifySpec(settings, s, presented);
            step.outcome.Err? ==> step.state == s
    ensures VerifyToken(settings, presented, s.now).Err? ==>
              VerifySpec(settings, s, presented).outcome == Err(INVALID_TOKEN)
    ensures VerifyToken(settings, presented, s.now).Ok? && Lookup(s, LoginKey(presented.sub)) != Some(Tok(presented)) ==>
              VerifySpec(settings, s, presented).outcome == Err(TOKEN_MISMATCH)
  {
  }

  /** What a successful `verify` leaves behind: a redirect to the web app
      whose two cookies hold a fresh access token and a fresh refresh token,
      each cookie living exactly as long as its token; the refresh token is
      the one now recorded for the address, with the same lifetime; the login
      entry for the address is untouched; and no other key changes except
      the `login:{token}` key the handler deletes. */
  lemma VerifySuccess(settings: Settings, s: State<Value>, presented: Token)
    requires VerifySpec(settings, s, presented).outcome.Ok?
    ensures var step := VerifySpec(settings, s, presented);
            var email := presented.sub;
            var cookies := step.outcome.value.cookies;
            && step.outcome.value.url == settings.webAppUrl + "/"
            && |cookies| == 2
            && cookies[0].name == "access_token" && cookies[1].name == "refresh_token"
            && cookies[0].value == GenerateAccessToken(settings, email, s.now)
            && cookies[1].value == RefreshToken(settings, email, s.now)
            && cookies[0].maxAge == cookies[0].value.exp - s.now == ACCESS_TTL == 3600
            && cookies[1].maxAge == cookies[1].value.exp - s.now == REFRESH_TTL == 604800
            && Lookup(step.state, RefreshKey(email)) == Some(Tok(cookies[1].value))
            && step.state.entries[RefreshKey(email)].expiresAt == s.now + cookies[1].maxAge
            && Lookup(step.state, LoginKey(email)) == Lookup(s, LoginKey(email)) == Some(Tok(presented))
            && (forall k :: k != RefreshKey(email) && k != LoginKey(Compact(presented)) ==>
                  Lookup(step.state, k) == Lookup(s, k))
            && step.state.now == s.now
  {
    var email := presented.sub;
    assert LoginKey(Compact(presented)) != LoginKey(email) by {
      assert |Compact(presented)| > |email|;
    }
    assert RefreshKey(email) != LoginKey(email) by {
      RefreshKeyIsNotLoginKey(email);
      assert IsLoginKey(LoginKey(email)) by { assert LoginKey(email)[..6] == "login:"; }
    }
  }

  // ---------------------------------------------------------------------------
  // The login entries
  // ---------------------------------------------------------------------------

  /** Every `login:` entry holds the login token this router minted for the
      address in the key at the moment the entry was written, so the entry
      and its token expire together. */
  ghost predicate LoginEntriesIssued(settings: Settings, s: State<Value>)
  {
    forall k | k in s.entries && IsLoginKey(k) ::
      s.entries[k].value == Tok(GenerateLoginToken(settings, k[6..], s.entries[k].expiresAt - LOGIN_TTL))
  }

  lemma LoginKeyParts(email: string)
    ensures IsLoginKey(LoginKey(email)) && LoginKey(email)[6..] == email
  {
    assert LoginKey(email)[..6] == "login:";
  }

  /** Whenever a `login:{email}` entry is present, the token it holds is
      unexpired and verifies as a token for that very address. */
  lemma {:induction false} PresentLoginTokenIsLive(settings: Settings, s: State<Value>, email: string)
    requires LoginEntriesIssued(settings, s)
    requires Lookup(s, LoginKey(email)).Some?
    ensures var v := Lookup(s, LoginKey(email)).value;
            v.Tok? && v.token.Signed? && s.now < v.token.exp &&
            VerifyToken(settings, v.token, s.now) == Ok(email)
  {
    LoginKeyParts(email);
    var k := LoginKey(email);
    assert s.entries[k].value == Tok(GenerateLoginToken(settings, email, s.entries[k].expiresAt - LOGIN_TTL));
  }

  lemma {:induction false} RequestLoginKeepsEntriesIssued(settings: Settings, s: State<Value>, email: string)
    requires LoginEntriesIssued(settings, s)
    ensures LoginEntriesIssued(settings, RequestLoginSpec(settings, s, email).state)
  {
    var s' := RequestLoginSpec(settings, s, email).state;
    LoginKeyParts(email);
    forall k | k in s'.entries && IsLoginKey(k)
      ensures s'.entries[k].value == Tok(GenerateLoginToken(settings, k[6..], s'.entries[k].expiresAt - LOGIN_TTL))
    {
      if k != LoginKey(email) {
        assert s'.entries[k] == s.entries[k];
      }
    }
  }

  lemma {:induction false} VerifyKeepsEntriesIssued(settings: Settings, s: State<Value>, presented: Token)
    requires LoginEntriesIssued(settings, s)
    ensures LoginEntriesIssued(settings, VerifySpec(settings, s, presented).state)
  {
    var s' := VerifySpec(settings, s, presented).state;
    if VerifySpec(settings, s, presented).outcome.Ok? {
      var email := presented.sub;
      RefreshKeyIsNotLoginKey(email);
      forall k | k in s'.entries && IsLoginKey(k)
        ensures s'.entries[k].value == Tok(GenerateLoginToken(settings, k[6..], s'.entries[k].expiresAt - LOGIN_TTL))
      {
        assert k != RefreshKey(email);
        assert k in s.entries && s'.entries[k] == s.entries[k];
      }
    }
  }

  lemma ElapseKeepsEntriesIssued(settings: Settings, s: State<Value>, dt: nat)
    requires LoginEntriesIssued(settings, s)
    ensures LoginEntriesIssued(settings, Elapse(s, dt))
  {
  }

  /** The empty store satisfies the invariant. */
  lemma EmptyStoreIssued(settings: Settings, now: int)
    ensures LoginEntriesIssued(settings, State(map[], now))
  {
  }

  /** Only the latest link counts: once the entry for an address holds some
      other token, presenting an earlier one fails and changes nothing. */
  lemma SupersededTokenRejected(settings: Settings, s: State<Value>, presented: Token, latest: Token)
    requires presented.Signed? && presented != latest
    requires Lookup(s, LoginKey(presented.sub)) == Some(Tok(latest))
    ensures VerifySpec(settings, s, presented).state == s
    ensures VerifySpec(settings, s, presented).outcome.Err?
  {
  }

  /** Two requests for the same address, the second `dt > 0` seconds after the
      first: the first link no longer verifies. */
  lemma SecondRequestSupersedesFirst(settings: Settings, s: State<Value>, email: string, dt: nat)
    requires dt > 0
    ensures var first := RequestLoginSpec(settings, s, email);
            var second := RequestLoginSpec(settings, Elapse(first.state, dt), email);
            VerifySpec(settings, second.state, first.task.token).outcome.Err? &&
            VerifySpec(settings, second.state, first.task.token).state == second.state
  {
    var first := RequestLoginSpec(settings, s, email);
    var second := RequestLoginSpec(settings, Elapse(first.state, dt), email);
    assert first.task.token.exp != second.task.token.exp;
    SupersededTokenRejected(settings, second.state, first.task.token, second.task.token);
  }

  /** The link works: right after `request_login`, and for as long as the
      token and its entry live, verifying the e-mailed token succeeds. */
  lemma {:induction false} FreshLinkVerifies(settings: Settings, s: State<Value>, email: string, dt: nat)
    requires dt < LOGIN_TTL
    ensures var step := RequestLoginSpec(settings, s, email);
            VerifySpec(settings, Elapse(step.state, dt), step.task.token).outcome.Ok?
  {
    var step := RequestLoginSpec(settings, s, email);
    MintedTokensVerify(settings, email, s.now, s.now + dt);
    VerifyOutcome(settings, Elapse(step.state, dt), step.task.token);
  }

  /** FINDING, as written: the delete at the end of `verify` misses the login
      entry, so a link that verified once verifies again, on every later
      attempt until its 30 minutes are up. */
  lemma {:induction false} VerifyReplayable(settings: Settings, s: State<Value>, presented: Token, dt: nat)
    requires LoginEntriesIssued(settings, s)
    requires VerifySpec(settings, s, presented).outcome.Ok?
    requires s.now + dt < presented.exp
    ensures var after := VerifySpec(settings, s, presented).state;
            VerifySpec(settings, Elapse(after, dt), presented).outcome.Ok?
  {
    var after := VerifySpec(settings, s, presented).state;
    var email := presented.sub;
    VerifySuccess(settings, s, presented);
    VerifyOutcome(settings, s, presented);
    LoginKeyParts(email);
    var k := LoginKey(email);
    // The entry holds the token minted when it was written, so the two expire together.
    assert s.entries[k].value == Tok(GenerateLoginToken(settings, email, s.entries[k].expiresAt - LOGIN_TTL));
    assert s.entries[k].expiresAt == presented.exp;
    assert k in after.entries && after.entries[k] == s.entries[k];
    VerifyOutcome(settings, Elapse(after, dt), presented);
  }

  /** `verify` as evidently intended: a match consumes `login:{email}`. */
  function VerifyOnceSpec(settings: Settings, s: State<Value>, presented: Token): (step: VerifyStep)
    ensures step.outcome.Ok? <==>
              VerifyToken(settings, presented, s.now).Ok? && Lookup(s, LoginKey(presented.sub)) == Some(Tok(presented))
    ensures step.outcome.Err? ==> step.state == s
    ensures step.outcome.Ok? ==> Lookup(step.state, LoginKey(presented.sub)) == None
    ensures step.state.now == s.now
  {
    match VerifyToken(settings, presented, s.now)
    case Err(e) => VerifyStep(s, Err(e))
    case Ok(email) =>
      if Lookup(s, LoginKey(email)) != Some(Tok(presented)) then VerifyStep(s, Err(TOKEN_MISMATCH))
      else
        var afterDelete := Remove(s, LoginKey(email));
        var access := GenerateAccessToken(settings, email, afterDelete.now);
        var refresh := RefreshSpec(settings, afterDelete, email);
        VerifyStep(refresh.state, Ok(Redirect(settings.webAppUrl + "/", [
          Cookie("access_token", access, ACCESS_TTL),
          Cookie("refresh_token", refresh.token, REFRESH_TTL)])))
  }

  /** With the intended delete, a login token is accepted at most once: after
      a success, presenting it again, at any later time, fails with 400 and
      changes nothing. */
  lemma {:induction false} VerifyOnceIsSingleUse(settings: Settings, s: State<Value>, presented: Token, dt: nat)
    requires VerifyOnceSpec(settings, s, presented).outcome.Ok?
    ensures var after := Elapse(VerifyOnceSpec(settings, s, presented).state, dt);
            VerifyOnceSpec(settings, after, presented).outcome.Err? &&
            VerifyOnceSpec(settings, after, presented).state == after
  {
    var email := presented.sub;
    var after := Elapse(VerifyOnceSpec(settings, s, presented).state, dt);
    assert RefreshKey(email) != LoginKey(email) by {
      RefreshKeyIsNotLoginKey(email);
      LoginKeyParts(email);
    }
    assert Lookup(after, LoginKey(email)) == None;
  }
}
