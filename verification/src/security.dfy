/**
 * Token issuing and request authentication of app/core/security.py.
 *
 * JWT signing and checking, argon2 hashing and the clock are inputs: a
 * token is decoded by `decode`, which answers None where jose raises
 * `JWTError` (a bad signature or a passed `exp` among them), and a password
 * is checked by `verify`.  The Redis token blacklist is a set of tokens.
 * Claims are JSON objects; `exp` is seconds since the epoch.
 */
module Security {
  import opened Outcomes
  import opened Json
  import opened Tables

  datatype User = User(
    id: nat, username: string, passwordHash: string, nickname: Option<string>,
    isActive: bool, isSuperuser: bool, lastActive: Option<int>)

  datatype TokenSettings = TokenSettings(accessMinutes: nat, refreshDays: nat)

  type Decoder = string -> Option<Object>

  const AccessType: string := "access"
  const RefreshType: string := "refresh"

  /**
   * `data.copy()` updated with `exp` and `type`.  The lifetime is
   * `expires_delta` when that is truthy; a missing or zero delta (a zero
   * `timedelta` is falsy) gives the configured default.
   */
  function Claims(data: Object, now: int, delta: Option<int>, defaultLifetime: int, kind: string): (c: Object)
    ensures c.Keys == data.Keys + {"exp", "type"}
    ensures c["type"] == JStr(kind)
    ensures c["exp"] == JInt(now + (if delta.Some? && delta.value != 0 then delta.value else defaultLifetime))
    ensures forall k :: k in data && k != "exp" && k != "type" ==> c[k] == data[k]
  {
    var lifetime := if delta.Some? && delta.value != 0 then delta.value else defaultLifetime;
    Update(data, map["exp" := JInt(now + lifetime), "type" := JStr(kind)])
  }

  /** `create_access_token`: type "access", by default valid for the configured minutes. */
  function AccessClaims(data: Object, now: int, delta: Option<int>, s: TokenSettings): (c: Object)
    ensures "type" in c && c["type"] == JStr("access") && "exp" in c
    ensures delta.None? ==> c["exp"] == JInt(now + s.accessMinutes * 60)
  {
    Claims(data, now, delta, s.accessMinutes * 60, AccessType)
  }

  /** `create_refresh_token`: type "refresh", by default valid for the configured days. */
  function RefreshClaims(data: Object, now: int, delta: Option<int>, s: TokenSettings): (c: Object)
    ensures "type" in c && c["type"] == JStr("refresh") && "exp" in c
    ensures delta.None? ==> c["exp"] == JInt(now + s.refreshDays * 86400)
  {
    Claims(data, now, delta, s.refreshDays * 86400, RefreshType)
  }

  /** `db.query(User).filter(username == name, is_active == True).first()` */
  function FindActive(users: seq<User>, username: string): (r: Option<User>)
    ensures r.Some? ==> r.value in users && r.value.username == username && r.value.isActive
    ensures r.None? <==> forall u :: u in users ==> !(u.username == username && u.isActive)
  {
    First(users, (u: User) => u.username == username && u.isActive)
  }

  /** `authenticate_user`: the active user of that name whose password checks out, else None. */
  function Authenticate(users: seq<User>, username: string, password: string, verify: (string, string) -> bool)
    : (r: Option<User>)
    ensures r.Some? ==> r.value in users && r.value.username == username && r.value.isActive
                        && verify(password, r.value.passwordHash)
    ensures FindActive(users, username).None? ==> r.None?
    ensures FindActive(users, username).Some? && !verify(password, FindActive(users, username).value.passwordHash)
            ==> r.None?
    ensures FindActive(users, username).Some? && verify(password, FindActive(users, username).value.passwordHash)
            ==> r == FindActive(users, username)
  {
    var u := FindActive(users, username);
    if u.None? then None
    else if !verify(password, u.value.passwordHash) then None
    else u
  }

  const CredentialsError: Failure := Http(401, "无效的认证凭据")

  /** `payload.get(key)` compared with a string. */
  predicate ClaimIs(payload: Object, key: string, value: string) {
    key in payload && payload[key] == JStr(value)
  }

  /**
   * `get_current_user`: the checks run in order (blacklist, decoding, type,
   * presence of `sub`, an active user of that name) and every one of them
   * fails with the same 401.
   */
  function CurrentUser(token: string, blacklist: set<string>, decode: Decoder, users: seq<User>): (r: Result<User>)
    ensures r.Ok? <==> (token !in blacklist && decode(token).Some? && ClaimIs(decode(token).value, "type", "access")
                        && "sub" in decode(token).value && decode(token).value["sub"].JStr?
                        && FindActive(users, decode(token).value["sub"].s).Some?)
    ensures r.Err? ==> r.error == CredentialsError
    ensures r.Ok? ==> (r.value in users && r.value.isActive
                       && ClaimIs(decode(token).value, "sub", r.value.username))
  {
    if token in blacklist then Err(CredentialsError)
    else
      var payload := decode(token);
      if payload.None? then Err(CredentialsError)
      else if !("type" in payload.value && payload.value["type"] == JStr(AccessType)) then Err(CredentialsError)
      else if !("sub" in payload.value) || payload.value["sub"] == JNull then Err(CredentialsError)
      // a `sub` that is not a string matches no username column
      else if !payload.value["sub"].JStr? then Err(CredentialsError)
      else
        var u := FindActive(users, payload.value["sub"].s);
        if u.None? then Err(CredentialsError) else Ok(u.value)
  }

  /** A refresh token never passes as an access token. */
  lemma RefreshTokenIsNotAccess(token: string, blacklist: set<string>, decode: Decoder, users: seq<User>)
    requires decode(token).Some? && ClaimIs(decode(token).value, "type", "refresh")
    ensures CurrentUser(token, blacklist, decode, users).Err?
  {
  }

  /**
   * An access token issued for an active user's name authenticates that
   * user while it decodes to what was signed and is not blacklisted.
   */
  lemma IssuedAccessTokenAuthenticates(
    token: string, blacklist: set<string>, decode: Decoder, users: seq<User>,
    username: string, now: int, s: TokenSettings)
    requires decode(token) == Some(AccessClaims(map["sub" := JStr(username)], now, None, s))
    requires token !in blacklist
    requires exists u :: u in users && u.username == username && u.isActive
    ensures CurrentUser(token, blacklist, decode, users).Ok?
    ensures CurrentUser(token, blacklist, decode, users).value.username == username
  {
    var c := AccessClaims(map["sub" := JStr(username)], now, None, s);
    assert c["sub"] == JStr(username);
  }

  /** `get_current_active_user`: "用户未激活" with 400 for an inactive user. */
  function CurrentActiveUser(current: Result<User>): (r: Result<User>)
    ensures current.Err? ==> r == current
    ensures current.Ok? ==> (r.Ok? <==> current.value.isActive)
    ensures r.Ok? ==> r == current
  {
    if current.Err? then current
    else if !current.value.isActive then Err(Http(400, "用户未激活"))
    else current
  }

  /** The activity check after `get_current_user` never fires: that dependency only yields active users. */
  lemma ActiveCheckNeverFires(token: string, blacklist: set<string>, decode: Decoder, users: seq<User>)
    ensures CurrentActiveUser(CurrentUser(token, blacklist, decode, users)) == CurrentUser(token, blacklist, decode, users)
  {
  }

  const NotEnoughPermission: Failure := Http(403, "权限不足")

  /** `get_current_superuser`: an authenticated user without the superuser flag gets 403. */
  function CurrentSuperuser(current: Result<User>): (r: Result<User>)
    ensures current.Err? ==> r == current
    ensures current.Ok? && !current.value.isSuperuser ==> r == Err(NotEnoughPermission)
    ensures r.Ok? <==> current.Ok? && current.value.isSuperuser
    ensures r.Ok? ==> r == current
  {
    if current.Err? then current
    else if !current.value.isSuperuser then Err(NotEnoughPermission)
    else current
  }

  /** `get_current_user_web`: the session's user id (0 counts as none) names an active user, else None. */
  function CurrentUserWeb(sessionUserId: Option<int>, users: seq<User>): (r: Option<User>)
    ensures sessionUserId.None? || sessionUserId.value == 0 ==> r.None?
    ensures r.Some? ==> (r.value in users && r.value.isActive && sessionUserId.Some?
                         && r.value.id == sessionUserId.value)
    ensures r.None? && sessionUserId.Some? && sessionUserId.value != 0
            ==> forall u :: u in users ==> !(u.id == sessionUserId.value && u.isActive)
  {
    if sessionUserId.None? || sessionUserId.value == 0 then None
    else First(users, (u: User) => u.id == sessionUserId.value && u.isActive)
  }

  /** `get_current_superuser_web`: 403 without a session user or when that user is no superuser. */
  function CurrentSuperuserWeb(current: Option<User>): (r: Result<User>)
    ensures r.Ok? <==> current.Some? && current.value.isSuperuser
    ensures r.Ok? ==> r.value == current.value
    ensures r.Err? ==> r.error == NotEnoughPermission
  {
    if current.None? || !current.value.isSuperuser then Err(NotEnoughPermission) else Ok(current.value)
  }

  /**
   * The scheme object `HTTPBearer()` keeps `auto_error=True`: a request
   * without bearer credentials is refused by the dependency itself, before
   * any route or dependency body sees it.
   */
  const NotAuthenticated: Failure := Http(403, "Not authenticated")

  /**
   * `get_current_user_optional` behind `Depends(security)`.  A missing
   * header never reaches the body's `if not credentials` branch: the scheme
   * refuses the request.  With credentials present, any authentication
   * failure gives None.
   */
  function CurrentUserOptional(token: Option<string>, blacklist: set<string>, decode: Decoder, users: seq<User>)
    : (r: Result<Option<User>>)
    ensures r.Err? <==> token.None?
    ensures r.Err? ==> r.error == NotAuthenticated
    ensures token.Some? ==> (r.value.Some? <==> CurrentUser(token.value, blacklist, decode, users).Ok?)
    ensures r.Ok? && r.value.Some? ==> r.value.value == CurrentUser(token.value, blacklist, decode, users).value
  {
    if token.None? then Err(NotAuthenticated)
    else
      var u := CurrentUser(token.value, blacklist, decode, users);
      if u.Ok? then Ok(Some(u.value)) else Ok(None)
  }
}
