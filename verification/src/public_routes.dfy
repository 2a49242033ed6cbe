/**
 * The unauthenticated routes of app/api/routes/public.py: registration,
 * login, token refresh, logout and token verification.
 *
 * Signing is the input `sign`, decoding the input `decode` and hashing the
 * inputs `hash`/`verify` (see Security).  Refresh tokens are single-use: a
 * refresh puts the presented token on the blacklist, and a blacklisted
 * token is refused.  The Redis time-to-live of a blacklist entry is not
 * modelled, nor are the 500 answers a failing database or Redis produces.
 */
module PublicRoutes {
  import opened Outcomes
  import opened Json
  import opened Tables
  import opened Security
  import UserSchemas

  datatype Token = Token(accessToken: string, refreshToken: Option<string>, tokenType: string, expiresIn: int)

  /** The id the database assigns to the next user. */
  function NextUserId(users: seq<User>): (id: nat)
    ensures forall u :: u in users ==> u.id < id
  {
    NextId(users, (u: User) => u.id)
  }

  const UsernameTaken: Failure := Http(400, "用户名已存在")

  /**
   * `register_user`: a taken username, active or not, is refused with 400;
   * otherwise an active, ordinary user with the hashed password is added.
   */
  function Register(users: seq<User>, data: UserSchemas.UserCreate, hash: string -> string)
    : (r: Result<(seq<User>, User)>)
    ensures r.Err? <==> exists u :: u in users && u.username == data.username
    ensures r.Err? ==> r.error == UsernameTaken
    ensures r.Ok? ==> (r.value.0 == users + [r.value.1]
                       && r.value.1.username == data.username && r.value.1.nickname == data.nickname
                       && r.value.1.passwordHash == hash(data.password)
                       && r.value.1.isActive && !r.value.1.isSuperuser
                       && forall u :: u in users ==> u.id < r.value.1.id)
  {
    if First(users, (u: User) => u.username == data.username).Some? then Err(UsernameTaken)
    else
      var u := User(NextUserId(users), data.username, hash(data.password), data.nickname, true, false, None);
      Ok((users + [u], u))
  }

  /** Usernames stay unique under registration. */
  lemma RegisterKeepsUsernamesUnique(users: seq<User>, data: UserSchemas.UserCreate, hash: string -> string)
    requires forall i, j :: 0 <= i < j < |users| ==> users[i].username != users[j].username
    requires Register(users, data, hash).Ok?
    ensures var t := Register(users, data, hash).value.0;
      forall i, j :: 0 <= i < j < |t| ==> t[i].username != t[j].username
  {
    var t := Register(users, data, hash).value.0;
    forall i, j | 0 <= i < j < |t| ensures t[i].username != t[j].username {
      if j == |users| {
        assert t[i] in users;
      }
    }
  }

  const BadCredentials: Failure := Http(401, "用户名或密码错误")

  /** The two tokens every successful login or refresh hands out for `username`. */
  function IssueTokens(username: string, now: int, s: TokenSettings, sign: Object -> string): (t: Token)
    ensures t.tokenType == "bearer" && t.expiresIn == s.accessMinutes * 60 && t.refreshToken.Some?
    ensures t.accessToken == sign(AccessClaims(map["sub" := JStr(username)], now, Some(s.accessMinutes * 60), s))
    ensures t.refreshToken.value == sign(RefreshClaims(map["sub" := JStr(username)], now, Some(s.refreshDays * 86400), s))
  {
    var sub := map["sub" := JStr(username)];
    Token(sign(AccessClaims(sub, now, Some(s.accessMinutes * 60), s)),
          Some(sign(RefreshClaims(sub, now, Some(s.refreshDays * 86400), s))),
          "bearer", s.accessMinutes * 60)
  }

  /**
   * `login_user`: an unknown or inactive user and a wrong password get the
   * same 401, so the answer does not reveal which names exist.  A login
   * stamps the user's last activity.
   */
  function Login(
    users: seq<User>, username: string, password: string, verify: (string, string) -> bool,
    now: int, s: TokenSettings, sign: Object -> string)
    : (r: Result<(seq<User>, Token)>)
    ensures r.Ok? <==> Authenticate(users, username, password, verify).Some?
    ensures r.Err? ==> r.error == BadCredentials
    ensures r.Ok? ==> r.value.1 == IssueTokens(username, now, s, sign)
    ensures r.Ok? ==> (|r.value.0| == |users|
                       && forall i :: 0 <= i < |users| ==>
                            r.value.0[i] == if users[i].id == Authenticate(users, username, password, verify).value.id
                                            then users[i].(lastActive := Some(now)) else users[i])
  {
    var u := Authenticate(users, username, password, verify);
    if u.None? then Err(BadCredentials)
    else
      var stamped := MapWhere(users, (x: User) => x.id == u.value.id, (x: User) => x.(lastActive := Some(now)));
      Ok((stamped, IssueTokens(u.value.username, now, s, sign)))
  }

  const InvalidRefresh: Failure := Http(401, "无效的刷新令牌")
  const InvalidPayload: Failure := Http(401, "无效的令牌载荷")
  const UnknownUser: Failure := Http(401, "用户不存在或已禁用")
  const Revoked: Failure := Http(401, "令牌已失效")

  /**
   * `refresh_token`, checks in order: the token decodes to a non-empty
   * payload of type "refresh"; its `sub` is truthy; it names an active
   * user; it is not blacklisted.  Then the token is blacklisted and a new
   * pair is issued.
   */
  function Refresh(
    users: seq<User>, blacklist: set<string>, token: string, decode: Decoder,
    now: int, s: TokenSettings, sign: Object -> string)
    : (r: Result<(set<string>, Token)>)
    ensures r.Err? ==> r.error.Http? && r.error.status == 401
    ensures r.Ok? ==> (token !in blacklist && r.value.0 == blacklist + {token}
                       && decode(token).Some? && ClaimIs(decode(token).value, "type", "refresh")
                       && "sub" in decode(token).value && decode(token).value["sub"].JStr?
                       && FindActive(users, decode(token).value["sub"].s).Some?
                       && r.value.1 == IssueTokens(decode(token).value["sub"].s, now, s, sign))
    ensures decode(token).None? || !ClaimIs(decode(token).value, "type", "refresh") ==> r == Err(InvalidRefresh)
    ensures (decode(token).Some? && ClaimIs(decode(token).value, "type", "refresh")
             && "sub" in decode(token).value && decode(token).value["sub"].JStr? && decode(token).value["sub"].s != ""
             && FindActive(users, decode(token).value["sub"].s).Some? && token in blacklist) ==> r == Err(Revoked)
    ensures (decode(token).Some? && ClaimIs(decode(token).value, "type", "refresh")
             && "sub" in decode(token).value && decode(token).value["sub"].JStr? && decode(token).value["sub"].s != ""
             && FindActive(users, decode(token).value["sub"].s).Some? && token !in blacklist) ==> r.Ok?
  {
    var payload := decode(token);
    if payload.None? || payload.value == map[] || !ClaimIs(payload.value, "type", RefreshType) then Err(InvalidRefresh)
    else if !("sub" in payload.value) || !Truthy(payload.value["sub"]) then Err(InvalidPayload)
    // a `sub` that is not a string matches no username column
    else if !payload.value["sub"].JStr? then Err(UnknownUser)
    else
      var u := FindActive(users, payload.value["sub"].s);
      if u.None? then Err(UnknownUser)
      else if token in blacklist then Err(Revoked)
      else Ok((blacklist + {token}, IssueTokens(u.value.username, now, s, sign)))
  }

  /** A refresh token works once: presenting it again is refused. */
  lemma RefreshIsSingleUse(
    users: seq<User>, blacklist: set<string>, token: string, decode: Decoder,
    now: int, later: int, s: TokenSettings, sign: Object -> string)
    requires Refresh(users, blacklist, token, decode, now, s, sign).Ok?
    ensures var again := Refresh(users, Refresh(users, blacklist, token, decode, now, s, sign).value.0,
                                 token, decode, later, s, sign);
      again == Err(Revoked)
  {
  }

  /** `logout_user`: a token that decodes to a payload carrying `exp` is blacklisted; any other is not. */
  function Logout(blacklist: set<string>, token: string, decode: Decoder): (r: set<string>)
    ensures decode(token).Some? && "exp" in decode(token).value ==> r == blacklist + {token}
    ensures !(decode(token).Some? && "exp" in decode(token).value) ==> r == blacklist
  {
    var payload := decode(token);
    if payload.Some? && "exp" in payload.value then blacklist + {token} else blacklist
  }

  const InvalidToken: Failure := Http(401, "无效的令牌")

  /** `verify_token`: a token that decodes to a non-empty payload and is not blacklisted, of any type. */
  function VerifyToken(blacklist: set<string>, token: string, decode: Decoder): (r: Result<string>)
    ensures r.Ok? <==> decode(token).Some? && decode(token).value != map[] && token !in blacklist
    ensures r.Ok? ==> r.value == "令牌有效"
    ensures decode(token).None? ==> r == Err(InvalidToken)
    ensures decode(token).Some? && decode(token).value != map[] && token in blacklist ==> r == Err(Revoked)
  {
    var payload := decode(token);
    if payload.None? || payload.value == map[] then Err(InvalidToken)
    else if token in blacklist then Err(Revoked)
    else Ok("令牌有效")
  }

  /** After logout an access token neither verifies nor authenticates. */
  lemma LogoutRevokes(blacklist: set<string>, token: string, decode: Decoder, users: seq<User>)
    requires decode(token).Some? && "exp" in decode(token).value
    ensures VerifyToken(Logout(blacklist, token, decode), token, decode) == Err(Revoked)
    ensures CurrentUser(token, Logout(blacklist, token, decode), decode, users).Err?
  {
  }
}
