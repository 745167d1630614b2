# Login-link authentication core of a social-app backend

This Dafny project models the authentication core of a FastAPI backend.
A user asks for a login link by e-mail. The backend mints a signed login
token (a JSON Web Token, RFC 7519) and keeps it in an expiring key-value
store (Redis) under `login:{email}` for 30 minutes. Presenting the token at
`/auth/verify` yields an access token and a refresh token as cookies, and the
refresh token is recorded under `refresh:{email}`. Requests are authenticated
by resolving a `session_id` cookie through `session:{id}` entries of the same
store. Addresses are checked against a small blacklist of disposable domains.

The model has seven modules:

- `Outcomes` (`outcomes.dfy`): the option and result types, and `HttpError`
  with its status and detail.
- `KvStore` (`kv_store.dfy`): the store as a pure `State` (map from key to
  value and absolute expiry, plus an integer clock in seconds), with `Lookup`,
  `Put` (SETEX), `Remove` (DEL) and `Elapse`. The class `Store` holds the same
  fields and is updated in place by `SetEx`, `Delete` and `Tick`. A key reads
  as absent once the clock reaches its expiry.
- `JwtCodec` (`jwt_codec.dfy`): tokens as abstract values
  `Signed(sub, exp, key, alg)` or `Malformed(text)`. `Decode` is PyJWT's
  decode: structure, then algorithm, then signature, then expiry. A token is
  expired once `now` reaches `exp`. A signature verifies when the verifying
  key is the partner of the signing key (`Pairs`): the same secret for HMAC,
  or the public half of a key pair.
- `StoredValues` (`stored_values.dfy`): what the store holds, either text or
  a token.
- `JwtTokens` (`jwt_tokens.dfy`): `create_login_token` and `decode_jwt` of
  app/jwt.py.
- `Auth` (`auth.dfy`): app/api/v1/routers/auth.py. `RequestLogin`,
  `GenerateRefreshToken` and `Verify` are methods that change a `Store`. Each
  is specified by a function (`RequestLoginSpec`, `RefreshSpec`,
  `VerifySpec`) from the old store state to the new state and the response.
  The lemmas are stated over those functions. `LoginEntriesIssued` is the
  invariant on `login:` entries: each holds the token minted for its address
  when the entry was written. Requesting, verifying and the passing of time
  all preserve it.
- `Dependencies` (`dependencies.dfy`): the two guards of
  app/dependencies.py, as functions of the store state, the request cookies
  and the user table.
- `Validators` (`validators.dfy`): `email_validator`, with Python's
  `str.lower` and `str.split` written out.

The clock, the HMAC secret, the key pair, the algorithm, the web app URL and
the syntax checker `validate_email` are parameters.

## Model

| member | source | states |
|---|---|---|
| `KvStore.Lookup` | app/api/v1/routers/auth.py:153 | `GET` returns the stored value exactly while the clock is before the entry's expiry, and absent otherwise |
| `KvStore.Put` | app/api/v1/routers/auth.py:125 | `SETEX` makes the key read back the new value with expiry now + ttl; every other key reads as before |
| `KvStore.Remove` | app/api/v1/routers/auth.py:160 | `DEL` makes the key read as absent; every other key reads as before |
| `KvStore.Elapse` | app/api/v1/routers/auth.py:125 | advancing the clock never makes a key readable that was not, and never changes a value that still reads |
| `KvStore.PutLivesForTtl` | app/api/v1/routers/auth.py:125 | a value written with SETEX reads back for exactly ttl seconds, then reads as absent |
| `KvStore.Store.Get` | app/dependencies.py:26 | the store object's `get` agrees with `Lookup` on its current fields |
| `KvStore.Store.SetEx` | app/api/v1/routers/auth.py:72-76 | the in-place `setex` leaves the store in the state `Put` describes |
| `KvStore.Store.Delete` | app/api/v1/routers/auth.py:160 | the in-place `delete` leaves the store in the state `Remove` describes |
| `KvStore.Store.Tick` | app/api/v1/routers/auth.py:125 | the store's clock moves forward by `dt`, as `Elapse` describes; entries are untouched |
| `JwtCodec.Encode` | app/jwt.py:21-25 | the encoded token carries exactly the given `sub`, `exp`, signing key and algorithm |
| `JwtCodec.Decode` | app/jwt.py:32-36 | decoding succeeds iff the token parses, its algorithm is allowed, the key pairs with the signing key and now < exp; then it returns exactly `sub` and `exp`. It reports an expired signature iff everything but the expiry checks out |
| `JwtCodec.DecodeEncode` | app/jwt.py:21-37 | round trip: decoding with the partner key and the same algorithm before `exp` gives back the claims |
| `JwtCodec.Compact` | app/api/v1/routers/auth.py:91 | the text of a signed token is longer than its subject, so it is never equal to the address it names |
| `JwtTokens.CreateLoginToken` | app/jwt.py:10-27 | the token is signed with the private key and the configured algorithm and carries `sub` = email. A non-zero delta gives `exp` = now + delta. A missing or zero delta gives now + the configured minutes |
| `JwtTokens.DecodeJwt` | app/jwt.py:30-45 | success iff PyJWT decode succeeds with the public key and the one configured algorithm, returning exactly `sub` and `exp`. 401 "Token expired" iff the token is well signed with that algorithm but past `exp`. Every other failure (bad signature, wrong algorithm, malformed token) is 401 "Invalid token" |
| `JwtTokens.CreateDecodeRoundTrip` | app/jwt.py:10-45 | a created token decodes to its email and `exp` until `exp`, and gives "Token expired" from then on |
| `JwtTokens.ZeroDeltaUsesDefaultWindow` | app/jwt.py:11-16 | a zero delta mints the same token as no delta, and that token is not already expired |
| `JwtTokens.OnlyConfiguredAlgorithm` | app/jwt.py:33-36 | a token under any other algorithm is "Invalid token", even with a good key and expiry |
| `Auth.GenerateLoginToken` | app/api/v1/routers/auth.py:46-52 | the login token names the address and expires 30 minutes (1800 s) after minting |
| `Auth.GenerateAccessToken` | app/api/v1/routers/auth.py:55-61 | the access token names the address and expires one hour (3600 s) after minting |
| `Auth.RefreshToken` | app/api/v1/routers/auth.py:64-70 | the refresh token names the address and expires seven days (604800 s) after minting |
| `Auth.VerifyToken` | app/api/v1/routers/auth.py:81-86 | success iff the token is HS256-signed with the secret and unexpired, returning its `sub`. Every failure, expiry included, is 401 "Invalid token" |
| `Auth.MintedTokensVerify` | app/api/v1/routers/auth.py:46-70 | each minted token verifies to its own address before its `exp` and fails from `exp` on |
| `Auth.ExpiredLooksForged` | app/api/v1/routers/auth.py:81-86 | PyJWT tells an expired token from a forged one, but `verify_token` answers both with the same 401 |
| `Auth.VerificationEmail` | app/api/v1/routers/auth.py:89-93 | the e-mail goes to the queued address with subject "Log in to Connector". Its body is the greeting, then exactly the login link, then the line announcing the lifetime |
| `Auth.AnnouncedLifetime` | app/api/v1/routers/auth.py:93 | the lifetime the e-mail announces is "30" minutes, the login token's 1800 s |
| `Auth.LoginUrl` | app/api/v1/routers/auth.py:91 | the link is exactly the web app URL, then `/auth/verify?token=`, then the token text; each part can be read back from the link |
| `Auth.RequestLoginSpec` | app/api/v1/routers/auth.py:121-127 | replies "Login email sent" whatever the mail delivery does. Stores the minted token at `login:{email}`, with expiry now + 1800 equal to the token's `exp`. Queues the e-mail to the address with that token. No other key changes |
| `Auth.RequestLogin` | app/api/v1/routers/auth.py:121-127 | the handler, updating the store in place, produces the state, reply and queued e-mail of `RequestLoginSpec` |
| `Auth.EmailedLinkCarriesStoredToken` | app/api/v1/routers/auth.py:124-126 | the queued e-mail goes to the address, and its link carries the token now stored for that address |
| `Auth.RefreshSpec` | app/api/v1/routers/auth.py:64-78 | `refresh:{email}` now holds the minted refresh token, replacing any earlier one, with expiry equal to the token's `exp`. No other key changes |
| `Auth.GenerateRefreshToken` | app/api/v1/routers/auth.py:64-78 | the method mints the token and writes the store as `RefreshSpec` says |
| `Auth.VerifySpec` | app/api/v1/routers/auth.py:151-182 | `verify` as written, deleting `login:{token}` after a match. It succeeds iff the token verifies and `login:{sub}` holds exactly that token. A failure leaves the store as it was |
| `Auth.VerifyOnceSpec` | app/api/v1/routers/auth.py:153-163 | `verify` with the delete aimed at `login:{email}`. The same success condition, and a failure leaves the store as it was. After a success, `login:{sub}` reads as absent |
| `Auth.Verify` | app/api/v1/routers/auth.py:151-182 | the handler, updating the store in place, produces the state and outcome of `VerifySpec` |
| `Auth.VerifyOutcome` | app/api/v1/routers/auth.py:151-163 | success iff the token verifies and `login:{sub}` holds exactly that token. Otherwise 401 "Invalid token" when decoding fails, and 400 when the entry is absent or different. A failure leaves the store unchanged: no token is minted and no `refresh:` key is written |
| `Auth.VerifySuccess` | app/api/v1/routers/auth.py:160-182 | on success the redirect goes to the web app. The cookies hold the access token and the refresh token minted for the address at that moment. The access cookie's max_age (3600) equals its token's lifetime, and so does the refresh cookie's (604800). `refresh:{email}` holds the refresh cookie's token with the same lifetime. `login:{email}` is untouched. Only `login:{token}` and `refresh:{email}` change |
| `Auth.PresentLoginTokenIsLive` | app/api/v1/routers/auth.py:125 | under the invariant, a present `login:{email}` entry holds an unexpired token that verifies to that address |
| `Auth.RequestLoginKeepsEntriesIssued` | app/api/v1/routers/auth.py:121-127 | `request_login` preserves the login-entry invariant |
| `Auth.VerifyKeepsEntriesIssued` | app/api/v1/routers/auth.py:151-163 | `verify` preserves the login-entry invariant |
| `Auth.ElapseKeepsEntriesIssued` | app/api/v1/routers/auth.py:125 | the passing of time preserves the login-entry invariant |
| `Auth.EmptyStoreIssued` | app/api/v1/routers/auth.py:125 | an empty store satisfies the login-entry invariant |
| `Auth.SupersededTokenRejected` | app/api/v1/routers/auth.py:153-158 | when `login:{email}` holds a different token, presenting the earlier one fails and changes nothing |
| `Auth.SecondRequestSupersedesFirst` | app/api/v1/routers/auth.py:121-158 | after a second `request_login` for the same address at a later second, the first link fails and changes nothing |
| `Auth.FreshLinkVerifies` | app/api/v1/routers/auth.py:124-158 | the e-mailed token verifies at any time within 30 minutes of the request |
| `Auth.VerifyReplayable` | app/api/v1/routers/auth.py:160 | as written: after a successful `verify`, the same token verifies again at any later time before its `exp` |
| `Auth.VerifyOnceIsSingleUse` | app/api/v1/routers/auth.py:160 | with the delete aimed at `login:{email}`, a token that verified once fails at any later time and changes nothing |
| `Dependencies.SessionCookie` | app/dependencies.py:20-24 | a credential is present iff the `session_id` cookie exists and is non-empty |
| `Dependencies.SessionEmail` | app/dependencies.py:26-30 | a session resolves iff `session:{id}` reads as present and non-empty, and then to the stored text |
| `Dependencies.FirstUserWithEmail` | app/dependencies.py:32-33 | the user found is in the table and has the address. Nothing is found iff no user has it |
| `Dependencies.GetCurrentUser` | app/dependencies.py:16-39 | checks run in order, and the first that fails decides the error: "Not authenticated" iff no cookie, "Session expired" iff cookie but no live non-empty entry, "User not found" iff the entry resolves but no user has its address. No other error occurs, so when all three checks pass the guard succeeds, with a user whose email equals the stored value |
| `Dependencies.GetCurrentUserEmail` | app/dependencies.py:42-57 | the same first two failures, and on success the non-empty text stored under `session:{id}` |
| `Dependencies.GuardsAgree` | app/dependencies.py:16-57 | the address guard succeeds iff the user guard passes its first two checks. Both fail alike on those checks, and a found user's email is what the address guard returns |
| `Dependencies.DeletedSessionExpired` | app/dependencies.py:26-30 | after the session key is deleted, or once its expiry is reached, both guards answer "Session expired" |
| `Validators.Lower` | app/validators.py:5 | lower-casing keeps the length and maps every character through ASCII lower case |
| `Validators.Split` | app/validators.py:8 | `split("@")` gives at least one piece, and no piece contains the separator. It gives a single piece iff the separator does not occur |
| `Validators.JoinSplit` | app/validators.py:8 | round trip: joining the pieces of a split with the separator gives back the string |
| `Validators.SplitAtFirst` | app/validators.py:8 | the first piece is the text before the first separator, and the rest is the split of what follows it |
| `Validators.DomainOf` | app/validators.py:8 | a domain exists iff the normalised address contains `@`, and it contains no `@` |
| `Validators.DomainAfterFirstAt` | app/validators.py:8 | the domain of `local@domain` with a single `@` is exactly `domain` |
| `Validators.EmailValidator` | app/validators.py:4-12 | accepted iff the lower-cased input validates and the normalised address has a domain that is not `tempmail.com` or `disposable.com`; the original input is then returned unchanged. "Email domain not allowed" iff the domain is one of those two. The syntax failure and the missing domain (the `IndexError` of `split("@")[1]`) each have their own condition |
| `Validators.CaseInsensitive` | app/validators.py:5 | two inputs with the same lower case are accepted or refused alike, with the same error |
| `Validators.BlacklistDecides` | app/validators.py:7-10 | for a normaliser that leaves lower-case addresses alone, `local@domain` is refused iff its lower-cased domain is exactly one of the two blacklisted domains. Any other domain passes, subdomains included |
| `Validators.MixedCaseBlacklistedRefused` | app/validators.py:5-10 | `Alice@TempMail.COM` is refused |

## Left out

- Mail delivery: the SES client and `send_email` (app/api/v1/routers/auth.py:38-43, 95-104) and the `BackgroundTasks` queue are external I/O. `request_login` returns the queued task as a value (`MailTask`), and `VerificationEmail` builds its subject and body. Delivery failure is not modelled.
- Cryptography: HMAC and RSA signatures, base64url encoding and PyJWT's internals are abstract. A token remembers its signing key, and `Compact` is a stand-in for the real compact text.
- Token text: stored tokens, and the token compared at app/api/v1/routers/auth.py:153, are compared as token values rather than as text. The source compares text, and the two differ in one case. PyJWT decodes the signature segment with `base64.urlsafe_b64decode`, which ignores the unused low bits of the last character. So an HS256 signature (43 characters, 2 spare bits) has four spellings. `verify_token` (app/api/v1/routers/auth.py:83) accepts all four, but the text comparison at line 153 accepts only the stored one and answers 400 for the other three. The model maps all four spellings to one `Token` and answers with success.
- A signed token without a `sub` claim: `payload["sub"]` would raise `KeyError`, giving a 500. Every token in the model carries `sub`, since only this backend signs them.
- Request validation: `RequestLogin` takes the address that `LoginRequest` validation produced. That validation (pydantic's `EmailStr`, then `email_validator`, giving 422 on failure) is not modelled as part of the handler.
- The `except` branches of `request_login` (app/api/v1/routers/auth.py:129-141): nothing in its `try` block raises those errors, so they are not modelled.
- `validate_email` is a library routine. It is the parameter `validate`, returning the normalised address or nothing.
- `Validators.Lower` models only ASCII case mapping; Python's `str.lower` also maps non-ASCII letters.
- Time: one integer clock in whole seconds serves both the token `exp` and the store's expiry. Sub-second precision is not modelled. In the source, PyJWT truncates `exp` to whole seconds, and SETEX (app/api/v1/routers/auth.py:125, 72-76) runs after `datetime.now()` (lines 49, 67). So a store entry outlives its token by up to about a second. The statements of `RequestLoginSpec`, `RefreshSpec`, `LoginEntriesIssued` and `PresentLoginTokenIsLive` that the entry's expiry equals the token's `exp` hold only at this whole-second granularity. The outcome of `verify` is unaffected, because it checks the token before the entry.
- Store client: app/database.py defines no `r`, although app/api/v1/routers/auth.py:18 and app/dependencies.py:12 import it. The model assumes a client that returns the text that was written, as redis-py does with `decode_responses=True`. With redis-py's default client, `get` returns bytes. Then the comparison with a `str` token at app/api/v1/routers/auth.py:153 is always false, so every `verify` answers 400 and the replay below cannot happen. Also `str(user_email)` at app/dependencies.py:57 would give `"b'...'"`. `FreshLinkVerifies`, `VerifyReplayable`, `VerifySuccess` and `GetCurrentUserEmail` rest on this assumption.
- Configuration: app/config.py lacks several of the keys that app/jwt.py reads, so the secret, key pair, algorithm, lifetime and web app URL are parameters.
- Response plumbing: redirect and cookie attributes other than `max_age` (httponly, secure, samesite) are not modelled. Cookie values are the tokens rather than their text.
- User table: `.first()` over a query without ordering is modelled as the first match in table order. Users are unique by email, so the order does not matter.
- Concurrency: races between the separate `get` and `delete` calls of `verify` are not modelled. Each handler runs as one step on the store.
- Not present in these files, so not modelled: session creation, refresh-token rotation, sliding session expiry, and revocation. `DeletedSessionExpired` shows only what a plain delete of a session key does to the guards.

## Findings

| source | as written | input that shows it | evidently intended | confidence | as-written member | corrected member |
|---|---|---|---|---|---|---|
| app/api/v1/routers/auth.py:160 | after a match, `verify` deletes `login:{token}`, a key that is never written, so `login:{email}` keeps the token | `request_login` for an address, then `verify` twice with the e-mailed token within 30 minutes: both succeed and mint credentials | delete `login:{email}`, the entry compared at line 153 just before; `login:{token}` is a key that line 125 never writes, so the delete can only have been meant for the entry just checked | high (not executed) | `Auth.VerifyReplayable` | `Auth.VerifyOnceIsSingleUse` |

`Auth.Verify` models the handler as written. `Auth.VerifyOnceSpec` is the corrected definition; it differs from `Auth.VerifySpec` only in the key it deletes.
