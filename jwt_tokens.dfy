/** The login-token helpers of app/jwt.py: a token signed with the configured
    private key and algorithm, and a decoder that accepts only that algorithm
    and tells an expired token apart from every other failure. */
module JwtTokens {
  import opened Outcomes
  import opened JwtCodec

  /** The settings app/jwt.py reads: the key pair, the one algorithm, and
      the default lifetime of a login token in minutes. */
  datatype JwtSettings = JwtSettings(
    privateKey: Key,
    publicKey: Key,
    algorithm: string,
    verificationEmailExpiryMinutes: int)

  /** `create_login_token(email, expires_delta)` at time `now`; a delta is a
      number of seconds. A zero `timedelta` is false in Python, so a zero
      delta falls back to the configured window like a missing one. */
  function CreateLoginToken(settings: JwtSettings, email: string, expiresDelta: Option<int>, now: int): (t: Token)
    ensures t.Signed? && t.sub == email
    ensures t.key == settings.privateKey && t.alg == settings.algorithm
    ensures expiresDelta.Some? && expiresDelta.value != 0 ==> t.exp == now + expiresDelta.value
    ensures expiresDelta == None || expiresDelta == Some(0) ==>
              t.exp == now + settings.verificationEmailExpiryMinutes * 60
  {
    var expire :=
      if expiresDelta.Some? && expiresDelta.value != 0 then now + expiresDelta.value
      else now + settings.verificationEmailExpiryMinutes * 60;
    Encode(email, expire, settings.privateKey, settings.algorithm)
  }

  /** `decode_jwt(token)` at time `now`: the payload, or 401 with
      "Token expired" for a well-signed token past its `exp`, or 401 with
      "Invalid token" for every other failure. */
  function DecodeJwt(settings: JwtSettings, t: Token, now: int): (r: Result<Claims, HttpError>)
    ensures r.Ok? <==> Decode(t, settings.publicKey, [settings.algorithm], now).Ok?
    ensures r.Ok? ==> t.Signed? && t.alg == settings.algorithm && r.value == Claims(t.sub, t.exp)
    ensures r == Err(HttpError(UNAUTHORIZED, Plain("Token expired"))) <==>
              t.Signed? && t.alg == settings.algorithm && Pairs(t.key, settings.publicKey) && t.exp <= now
    ensures r.Err? && r != Err(HttpError(UNAUTHORIZED, Plain("Token expired"))) ==>
              r.error == HttpError(UNAUTHORIZED, Plain("Invalid token"))
  {
    match Decode(t, settings.publicKey, [settings.algorithm], now)
    case Ok(claims) => Ok(claims)
    case Err(ExpiredSignature) => Err(HttpError(UNAUTHORIZED, Plain("Token expired")))
    case Err(_) => Err(HttpError(UNAUTHORIZED, Plain("Invalid token")))
  }

  /** Round trip: with a matching key pair, a login token decodes back to its
      email until the moment its `exp` is reached, and reads as expired from
      then on. */
  lemma CreateDecodeRoundTrip(settings: JwtSettings, email: string, expiresDelta: Option<int>, now: int, later: int)
    requires Pairs(settings.privateKey, settings.publicKey)
    ensures var t := CreateLoginToken(settings, email, expiresDelta, now);
            DecodeJwt(settings, t, later) ==
              if later < t.exp then Ok(Claims(email, t.exp))
              else Err(HttpError(UNAUTHORIZED, Plain("Token expired")))
  {
    var t := CreateLoginToken(settings, email, expiresDelta, now);
    if later < t.exp {
      DecodeEncode(email, t.exp, settings.privateKey, settings.publicKey, settings.algorithm, later);
    }
  }

  /** A zero delta does not mint an already-expired token: for a positive
      configured window the token is valid right after it is created. */
  lemma ZeroDeltaUsesDefaultWindow(settings: JwtSettings, email: string, now: int)
    requires Pairs(settings.privateKey, settings.publicKey)
    requires settings.verificationEmailExpiryMinutes > 0
    ensures CreateLoginToken(settings, email, Some(0), now) == CreateLoginToken(settings, email, None, now)
    ensures DecodeJwt(settings, CreateLoginToken(settings, email, Some(0), now), now).Ok?
  {
  }

  /** A token signed with any other algorithm is refused as invalid, even
      when its key and its expiry are right. */
  lemma OnlyConfiguredAlgorithm(settings: JwtSettings, t: Token, now: int)
    requires t.Signed? && t.alg != settings.algorithm
    ensures DecodeJwt(settings, t, now) == Err(HttpError(UNAUTHORIZED, Plain("Invalid token")))
  {
  }
}
