/** The authentication guards of app/dependencies.py. Each resolves the
    `session_id` cookie of a request to the `session:{id}` entry of the store;
    `get_current_user` goes on to look the stored address up in the user
    table. Three checks, in this order, each with its own 401:
    no cookie, no live session entry, no such user. The guards only read. */
module Dependencies {
  import opened Outcomes
  import opened KvStore
  import opened StoredValues

  datatype UserStatus = Verified | Unverified | Deactivated | Deleted

  /** A row of the `users` table, as far as the guard sees it. */
  datatype User = User(id: string, email: string, username: Option<string>, fullName: Option<string>, status: UserStatus)

  const NOT_AUTHENTICATED: HttpError := HttpError(UNAUTHORIZED, Plain("Not authenticated"))
  const SESSION_EXPIRED: HttpError := HttpError(UNAUTHORIZED, Plain("Session expired"))
  const USER_NOT_FOUND: HttpError := HttpError(UNAUTHORIZED, Plain("User not found"))

  function SessionKey(id: string): (k: string) { "session:" + id }

  /** `request.cookies.get("session_id")`, with a missing and an empty cookie
      both counting as no cookie. */
  function SessionCookie(cookies: map<string, string>): (r: Option<string>)
    ensures r.Some? <==> "session_id" in cookies && cookies["session_id"] != ""
    ensures r.Some? ==> r.value == cookies["session_id"]
  {
    if "session_id" in cookies && cookies["session_id"] != "" then Some(cookies["session_id"]) else None
  }

  /** The address stored for a session, with an absent, expired or empty
      entry all counting as no session. */
  function SessionEmail(s: State<Value>, id: string): (r: Option<string>)
    ensures r.Some? <==> Lookup(s, SessionKey(id)).Some? && Text(Lookup(s, SessionKey(id)).value) != ""
    ensures r.Some? ==> r.value == Text(Lookup(s, SessionKey(id)).value)
  {
    match Lookup(s, SessionKey(id))
    case None => None
    case Some(v) => if Text(v) == "" then None else Some(Text(v))
  }

  /** `select(User).where(User.email == email)` followed by `.first()`. */
  function FirstUserWithEmail(users: seq<User>, email: string): (r: Option<User>)
    ensures r.Some? ==> r.value in users && r.value.email == email
    ensures r.None? <==> forall u :: u in users ==> u.email != email
  {
    if |users| == 0 then None
    else if users[0].email == email then Some(users[0])
    else
      assert users == [users[0]] + users[1..];
      FirstUserWithEmail(users[1..], email)
  }

  /** `get_current_user` */
  function GetCurrentUser(s: State<Value>, cookies: map<string, string>, users: seq<User>): (r: Result<User, HttpError>)
    ensures r == Err(NOT_AUTHENTICATED) <==> SessionCookie(cookies).None?
    ensures r == Err(SESSION_EXPIRED) <==>
              SessionCookie(cookies).Some? && SessionEmail(s, SessionCookie(cookies).value).None?
    ensures r == Err(USER_NOT_FOUND) <==>
              SessionCookie(cookies).Some? && SessionEmail(s, SessionCookie(cookies).value).Some? &&
              forall u :: u in users ==> u.email != SessionEmail(s, SessionCookie(cookies).value).value
    ensures r.Ok? || r.error in {NOT_AUTHENTICATED, SESSION_EXPIRED, USER_NOT_FOUND}
    ensures r.Ok? ==> r.value in users && r.value.email == SessionEmail(s, SessionCookie(cookies).value).value
  {
    match SessionCookie(cookies)
    case None => Err(NOT_AUTHENTICATED)
    case Some(id) =>
      match SessionEmail(s, id)
      case None => Err(SESSION_EXPIRED)
      case Some(email) =>
        match FirstUserWithEmail(users, email)
        case None => Err(USER_NOT_FOUND)
        case Some(user) => Ok(user)
  }

  /** `get_current_user_email` */
  function GetCurrentUserEmail(s: State<Value>, cookies: map<string, string>): (r: Result<string, HttpError>)
    ensures r == Err(NOT_AUTHENTICATED) <==> SessionCookie(cookies).None?
    ensures r == Err(SESSION_EXPIRED) <==>
              SessionCookie(cookies).Some? && SessionEmail(s, SessionCookie(cookies).value).None?
    ensures r.Ok? ==>
              && "session_id" in cookies
              && Lookup(s, SessionKey(cookies["session_id"])).Some?
              && r.value == Text(Lookup(s, SessionKey(cookies["session_id"])).value)
              && r.value != ""
  {
    match SessionCookie(cookies)
    case None => Err(NOT_AUTHENTICATED)
    case Some(id) =>
      match SessionEmail(s, id)
      case None => Err(SESSION_EXPIRED)
      case Some(email) => Ok(email)
  }

  /** The address guard succeeds exactly when the first two checks of the
      user guard pass, and then the user found has the address it returns;
      the two guards fail alike on those two checks. */
  lemma {:induction false} GuardsAgree(s: State<Value>, cookies: map<string, string>, users: seq<User>)
    ensures GetCurrentUserEmail(s, cookies).Ok? <==> GetCurrentUser(s, cookies, users) !in {Err(NOT_AUTHENTICATED), Err(SESSION_EXPIRED)}
    ensures GetCurrentUserEmail(s, cookies).Err? ==> GetCurrentUser(s, cookies, users) == Err(GetCurrentUserEmail(s, cookies).error)
    ensures GetCurrentUser(s, cookies, users).Ok? ==>
              GetCurrentUserEmail(s, cookies) == Ok(GetCurrentUser(s, cookies, users).value.email)
  {
  }

  /** Deleting the session entry, or letting it lapse, turns a request that
      carries its id into "Session expired", whoever the user is. */
  lemma {:induction false} DeletedSessionExpired(s: State<Value>, cookies: map<string, string>, users: seq<User>)
    requires SessionCookie(cookies).Some?
    ensures var gone := Remove(s, SessionKey(cookies["session_id"]));
            GetCurrentUser(gone, cookies, users) == Err(SESSION_EXPIRED) &&
            GetCurrentUserEmail(gone, cookies) == Err(SESSION_EXPIRED)
    ensures var k := SessionKey(cookies["session_id"]);
            k in s.entries && s.entries[k].expiresAt <= s.now ==>
              GetCurrentUser(s, cookies, users) == Err(SESSION_EXPIRED) &&
              GetCurrentUserEmail(s, cookies) == Err(SESSION_EXPIRED)
  {
  }
}
