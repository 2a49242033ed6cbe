/**
 * The account routes of app/api/endpoints/users.py: registration and login
 * by email or username, token refresh, self-service and administrator
 * updates with their uniqueness checks, and the superuser-only routes.
 *
 * This file works with accounts carrying an email, as the users table
 * does; its request bodies are taken as the routes read them (an email on
 * registration; email, username, password and nickname on an update).
 * The authenticated caller is the account the security dependency
 * produced; the failures of that dependency are modelled in Security.
 * Token signing and decoding are the inputs `sign` and `decode`.
 */
module UserEndpoints {
  import opened Outcomes
  import opened Json
  import opened Tables
  import Text
  import Paging
  import Security

  datatype Account = Account(
    id: nat, email: string, username: string, hashedPassword: string, nickname: Option<string>,
    isActive: bool, isSuperuser: bool)

  /** The unique constraints on the email and username columns. */
  predicate UniqueLogins(accounts: seq<Account>) {
    forall i, j :: 0 <= i < j < |accounts| ==>
      accounts[i].email != accounts[j].email && accounts[i].username != accounts[j].username
  }

  predicate EmailTaken(accounts: seq<Account>, email: string, except: int) {
    exists a :: a in accounts && a.email == email && a.id != except
  }

  predicate UsernameTaken(accounts: seq<Account>, username: string, except: int) {
    exists a :: a in accounts && a.username == username && a.id != except
  }

  const AlreadyRegistered: Failure := Custom(ValidationError, "Email or username already registered")

  /**
   * `register_user`: refused with a validation error when the email or the
   * username is in use; otherwise an active, ordinary account is added with
   * the password's hash.
   */
  function Register(
    accounts: seq<Account>, email: string, username: string, password: string, nickname: Option<string>,
    hash: string -> string)
    : (r: Result<(seq<Account>, Account)>)
    ensures r.Err? <==> EmailTaken(accounts, email, -1) || UsernameTaken(accounts, username, -1)
    ensures r.Err? ==> r.error == AlreadyRegistered
    ensures r.Ok? ==> (r.value.0 == accounts + [r.value.1]
                       && r.value.1.email == email && r.value.1.username == username
                       && r.value.1.hashedPassword == hash(password) && r.value.1.nickname == nickname
                       && r.value.1.isActive && !r.value.1.isSuperuser
                       && forall a :: a in accounts ==> a.id < r.value.1.id)
  {
    if First(accounts, (a: Account) => a.email == email || a.username == username).Some? then
      Err(AlreadyRegistered)
    else
      var a := Account(NextId(accounts, (x: Account) => x.id), email, username, hash(password), nickname, true, false);
      Ok((accounts + [a], a))
  }

  /** Registration keeps emails and usernames unique. */
  lemma RegisterKeepsUnique(
    accounts: seq<Account>, email: string, username: string, password: string, nickname: Option<string>,
    hash: string -> string)
    requires UniqueLogins(accounts)
    requires Register(accounts, email, username, password, nickname, hash).Ok?
    ensures UniqueLogins(Register(accounts, email, username, password, nickname, hash).value.0)
  {
    var t := Register(accounts, email, username, password, nickname, hash).value.0;
    forall i, j | 0 <= i < j < |t| ensures t[i].email != t[j].email && t[i].username != t[j].username {
      if j == |accounts| {
        assert t[i] in accounts;
      }
    }
  }

  datatype Token = Token(accessToken: string, refreshToken: Option<string>, tokenType: string, expiresIn: int)

  function SubjectOf(a: Account): Object { map["sub" := JStr(Text.ToDecimal(a.id))] }

  const IncorrectLogin: Failure := Http(401, "Incorrect username or password")
  const InactiveUser: Failure := Http(400, "Inactive user")

  /** The account a login name finds: the first whose email or username it is. */
  function FindLogin(accounts: seq<Account>, login: string): (r: Option<Account>)
    ensures r.Some? ==> r.value in accounts && (r.value.email == login || r.value.username == login)
    ensures r.None? <==> forall a :: a in accounts ==> a.email != login && a.username != login
  {
    First(accounts, (a: Account) => a.email == login || a.username == login)
  }

  /**
   * `login`: an unknown name or a wrong password gives 401; only then is
   * activity checked, with 400.  The access token lives the configured
   * minutes; the refresh token its default days.  Tokens name the account
   * by its id.
   */
  function Login(
    accounts: seq<Account>, login: string, password: string, verify: (string, string) -> bool,
    now: int, s: Security.TokenSettings, sign: Object -> string)
    : (r: Result<(Token, Account)>)
    ensures var a := FindLogin(accounts, login);
      (a.None? || !verify(password, a.value.hashedPassword) ==> r == Err(IncorrectLogin))
      && (a.Some? && verify(password, a.value.hashedPassword) && !a.value.isActive ==> r == Err(InactiveUser))
      && (r.Ok? <==> a.Some? && verify(password, a.value.hashedPassword) && a.value.isActive)
    ensures r.Ok? ==> (r.value.1 == FindLogin(accounts, login).value
                       && r.value.0.tokenType == "bearer" && r.value.0.expiresIn == s.accessMinutes * 60
                       && r.value.0.accessToken
                            == sign(Security.AccessClaims(SubjectOf(r.value.1), now, Some(s.accessMinutes * 60), s))
                       && r.value.0.refreshToken == Some(sign(Security.RefreshClaims(SubjectOf(r.value.1), now, None, s))))
  {
    var a := FindLogin(accounts, login);
    if a.None? || !verify(password, a.value.hashedPassword) then Err(IncorrectLogin)
    else if !a.value.isActive then Err(InactiveUser)
    else
      var sub := SubjectOf(a.value);
      Ok((Token(sign(Security.AccessClaims(sub, now, Some(s.accessMinutes * 60), s)),
                Some(sign(Security.RefreshClaims(sub, now, None, s))), "bearer", s.accessMinutes * 60),
          a.value))
  }

  /** Without the right password nothing is revealed: a wrong one gets the unknown-name answer, active or not. */
  lemma WrongPasswordLooksUnknown(
    accounts: seq<Account>, login: string, password: string, other: string, verify: (string, string) -> bool,
    now: int, s: Security.TokenSettings, sign: Object -> string)
    requires FindLogin(accounts, login).Some? && !verify(password, FindLogin(accounts, login).value.hashedPassword)
    requires FindLogin(accounts, other).None?
    ensures Login(accounts, login, password, verify, now, s, sign) == Login(accounts, other, password, verify, now, s, sign)
  {
  }

  const InvalidRefresh: Failure := Http(401, "Invalid refresh token")

  /** `int(payload.get("sub"))`: a decimal string, an integer or a boolean; anything else raises. */
  function SubjectId(payload: Object): (r: Option<int>)
    ensures "sub" in payload && payload["sub"].JStr? && Text.IsDigitString(payload["sub"].s)
            ==> r == Some(Text.ParseDecimal(payload["sub"].s))
    ensures !("sub" in payload) || payload["sub"].JNull? ==> r.None?
  {
    if !("sub" in payload) then None
    else
      match payload["sub"]
      case JStr(v) => if Text.IsDigitString(v) then Some(Text.ParseDecimal(v)) else None
      case JInt(n) => Some(n)
      case JBool(b) => Some(if b then 1 else 0)
      case _ => None
  }

  /** The primary key: no two accounts share an id. */
  predicate UniqueIds(accounts: seq<Account>) {
    forall i, j :: 0 <= i < j < |accounts| ==> accounts[i].id != accounts[j].id
  }

  /** `filter(User.id == id).first()` */
  function AccountById(accounts: seq<Account>, id: int): (r: Option<Account>)
    ensures r.Some? ==> r.value in accounts && r.value.id == id
    ensures r.None? <==> forall a :: a in accounts ==> a.id != id
    ensures UniqueIds(accounts) ==> forall a :: a in accounts && a.id == id ==> r == Some(a)
  {
    var r := First(accounts, (x: Account) => x.id == id);
    forall a | UniqueIds(accounts) && a in accounts && a.id == id ensures r == Some(a) {
      var i :| 0 <= i < |accounts| && accounts[i] == a;
      var j :| 0 <= j < |accounts| && accounts[j] == r.value;
      assert i == j;
    }
    r
  }

  /**
   * `refresh_token`: a refresh-type payload whose subject is the id of an
   * active account gets a new access token and no refresh token.  The
   * catch-all turns every failure, "Invalid user" included, into the same
   * 401 "Invalid refresh token".
   */
  function Refresh(
    accounts: seq<Account>, token: string, decode: Security.Decoder,
    now: int, s: Security.TokenSettings, sign: Object -> string)
    : (r: Result<Token>)
    ensures r.Err? ==> r.error == InvalidRefresh
    ensures r.Ok? <==> (decode(token).Some? && Security.ClaimIs(decode(token).value, "type", "refresh")
                        && SubjectId(decode(token).value).Some?
                        && AccountById(accounts, SubjectId(decode(token).value).value).Some?
                        && AccountById(accounts, SubjectId(decode(token).value).value).value.isActive)
    ensures r.Ok? ==> (r.value.refreshToken.None? && r.value.tokenType == "bearer"
                       && r.value.expiresIn == s.accessMinutes * 60
                       && var a := AccountById(accounts, SubjectId(decode(token).value).value).value;
                          r.value.accessToken == sign(Security.AccessClaims(SubjectOf(a), now, Some(s.accessMinutes * 60), s)))
  {
    var payload := decode(token);
    if payload.None? || !Security.ClaimIs(payload.value, "type", "refresh") then Err(InvalidRefresh)
    else
      var id := SubjectId(payload.value);
      if id.None? then Err(InvalidRefresh)
      else
        var a := AccountById(accounts, id.value);
        if a.None? || !a.value.isActive then Err(InvalidRefresh)
        else
          Ok(Token(sign(Security.AccessClaims(SubjectOf(a.value), now, Some(s.accessMinutes * 60), s)),
                   None, "bearer", s.accessMinutes * 60))
  }

  /** A refresh token for an account that has since been deactivated or deleted is refused. */
  lemma RefreshNeedsActiveAccount(
    accounts: seq<Account>, token: string, decode: Security.Decoder,
    now: int, s: Security.TokenSettings, sign: Object -> string, a: Account)
    requires UniqueIds(accounts) && a in accounts && !a.isActive
    requires decode(token).Some? && SubjectId(decode(token).value) == Some(a.id)
    ensures Refresh(accounts, token, decode, now, s, sign) == Err(InvalidRefresh)
  {
  }

  /** What an update request may carry; an absent field is unset. */
  datatype AccountUpdate = AccountUpdate(
    email: Option<string>, username: Option<string>, password: Option<string>, nickname: Option<string>)

  const EmailInUse: Failure := Custom(ValidationError, "Email already registered")
  const UsernameInUse: Failure := Custom(ValidationError, "Username already registered")

  /** Set fields replace; a password is stored only as its hash. */
  function Apply(a: Account, upd: AccountUpdate, hash: string -> string): (r: Account)
    ensures r.id == a.id && r.isActive == a.isActive && r.isSuperuser == a.isSuperuser
    ensures r.email == (if upd.email.Some? then upd.email.value else a.email)
    ensures r.username == (if upd.username.Some? then upd.username.value else a.username)
    ensures r.hashedPassword == (if upd.password.Some? then hash(upd.password.value) else a.hashedPassword)
    ensures r.nickname == (if upd.nickname.Some? then upd.nickname else a.nickname)
  {
    a.(email := if upd.email.Some? then upd.email.value else a.email,
       username := if upd.username.Some? then upd.username.value else a.username,
       hashedPassword := if upd.password.Some? then hash(upd.password.value) else a.hashedPassword,
       nickname := if upd.nickname.Some? then upd.nickname else a.nickname)
  }

  /**
   * The shared body of `update_current_user` and the administrator's
   * `update_user`: an email, then a username, held by another account is
   * refused; the target's own values pass.
   */
  function UpdateAccount(accounts: seq<Account>, target: Account, upd: AccountUpdate, hash: string -> string)
    : (r: Result<(seq<Account>, Account)>)
    ensures upd.email.Some? && EmailTaken(accounts, upd.email.value, target.id) ==> r == Err(EmailInUse)
    ensures (!(upd.email.Some? && EmailTaken(accounts, upd.email.value, target.id))
             && upd.username.Some? && UsernameTaken(accounts, upd.username.value, target.id)) ==> r == Err(UsernameInUse)
    ensures r.Ok? <==> !(upd.email.Some? && EmailTaken(accounts, upd.email.value, target.id))
                       && !(upd.username.Some? && UsernameTaken(accounts, upd.username.value, target.id))
    ensures r.Ok? ==> (r.value.1 == Apply(target, upd, hash) && |r.value.0| == |accounts|
                       && forall i :: 0 <= i < |accounts| ==>
                            r.value.0[i] == if accounts[i].id == target.id then Apply(accounts[i], upd, hash) else accounts[i])
  {
    if upd.email.Some? && First(accounts, (a: Account) => a.email == upd.email.value && a.id != target.id).Some? then
      Err(EmailInUse)
    else if upd.username.Some? && First(accounts, (a: Account) => a.username == upd.username.value && a.id != target.id).Some? then
      Err(UsernameInUse)
    else
      Ok((MapWhere(accounts, (a: Account) => a.id == target.id, (a: Account) => Apply(a, upd, hash)),
          Apply(target, upd, hash)))
  }

  /** Repeating one's own current email and username is never a conflict. */
  lemma OwnValuesAllowed(accounts: seq<Account>, me: Account, password: Option<string>, hash: string -> string)
    requires me in accounts && UniqueLogins(accounts)
    ensures UpdateAccount(accounts, me, AccountUpdate(Some(me.email), Some(me.username), password, None), hash).Ok?
  {
    forall a | a in accounts && a.email == me.email ensures a.id == me.id {
      var i :| 0 <= i < |accounts| && accounts[i] == a;
      var j :| 0 <= j < |accounts| && accounts[j] == me;
      assert i == j;
    }
    forall a | a in accounts && a.username == me.username ensures a.id == me.id {
      var i :| 0 <= i < |accounts| && accounts[i] == a;
      var j :| 0 <= j < |accounts| && accounts[j] == me;
      assert i == j;
    }
  }

  /** With unique ids, an accepted update keeps emails and usernames unique. */
  lemma UpdateKeepsUnique(accounts: seq<Account>, target: Account, upd: AccountUpdate, hash: string -> string)
    requires UniqueLogins(accounts) && UniqueIds(accounts)
    requires UpdateAccount(accounts, target, upd, hash).Ok?
    ensures UniqueLogins(UpdateAccount(accounts, target, upd, hash).value.0)
  {
    var t := UpdateAccount(accounts, target, upd, hash).value.0;
    forall i, j | 0 <= i < j < |t| ensures t[i].email != t[j].email && t[i].username != t[j].username {
      assert accounts[i].id != accounts[j].id;
      assert accounts[i] in accounts && accounts[j] in accounts;
    }
  }

  const UserNotFound: Failure := Custom(NotFoundError, "User not found")

  /** `update_current_user`: the caller updates their own account. */
  function UpdateMe(accounts: seq<Account>, caller: Account, upd: AccountUpdate, hash: string -> string)
    : (r: Result<(seq<Account>, Account)>)
    ensures r == UpdateAccount(accounts, caller, upd, hash)
    ensures r.Ok? ==> r.value.1.id == caller.id && r.value.1.isSuperuser == caller.isSuperuser
  {
    UpdateAccount(accounts, caller, upd, hash)
  }

  /** `get_current_superuser` for an authenticated caller. */
  function RequireSuperuser(caller: Account): (r: Result<Account>)
    ensures r.Ok? <==> caller.isSuperuser
    ensures r.Err? ==> r.error == Security.NotEnoughPermission
  {
    if caller.isSuperuser then Ok(caller) else Err(Security.NotEnoughPermission)
  }

  /** `update_user` by an administrator: 403, then 404, then the update. */
  function AdminUpdateUser(
    accounts: seq<Account>, caller: Account, userId: nat, upd: AccountUpdate, hash: string -> string)
    : (r: Result<(seq<Account>, Account)>)
    ensures !caller.isSuperuser ==> r == Err(Security.NotEnoughPermission)
    ensures caller.isSuperuser && (forall a :: a in accounts ==> a.id != userId) ==> r == Err(UserNotFound)
    ensures r.Ok? ==> caller.isSuperuser && r.value.1.id == userId
    ensures caller.isSuperuser && First(accounts, (a: Account) => a.id == userId).Some?
            ==> r == UpdateAccount(accounts, First(accounts, (a: Account) => a.id == userId).value, upd, hash)
  {
    var _ :- RequireSuperuser(caller);
    var u := First(accounts, (a: Account) => a.id == userId);
    if u.None? then Err(UserNotFound)
    else UpdateAccount(accounts, u.value, upd, hash)
  }

  /** `get_user` */
  function GetUser(accounts: seq<Account>, caller: Account, userId: nat): (r: Result<Account>)
    ensures !caller.isSuperuser ==> r == Err(Security.NotEnoughPermission)
    ensures r.Ok? <==> caller.isSuperuser && exists a :: a in accounts && a.id == userId
    ensures r.Ok? ==> r.value in accounts && r.value.id == userId
    ensures caller.isSuperuser && r.Err? ==> r.error == UserNotFound
  {
    var _ :- RequireSuperuser(caller);
    var u := First(accounts, (a: Account) => a.id == userId);
    if u.None? then Err(UserNotFound) else Ok(u.value)
  }

  /** `delete_user`: the account and only it is removed. */
  function DeleteUser(accounts: seq<Account>, caller: Account, userId: nat): (r: Result<seq<Account>>)
    ensures !caller.isSuperuser ==> r == Err(Security.NotEnoughPermission)
    ensures r.Ok? <==> caller.isSuperuser && exists a :: a in accounts && a.id == userId
    ensures r.Ok? ==> forall a :: a in r.value <==> a in accounts && a.id != userId
  {
    var _ :- RequireSuperuser(caller);
    if First(accounts, (a: Account) => a.id == userId).None? then Err(UserNotFound)
    else Ok(Filter(accounts, (a: Account) => a.id != userId))
  }

  /** `get_users`: the page of all accounts the parameters select, with the total count. */
  function GetUsers(accounts: seq<Account>, caller: Account, params: Paging.PageParams)
    : (r: Result<Paging.PaginatedResponse<Account>>)
    requires Paging.ValidParams(params)
    ensures r.Ok? <==> caller.isSuperuser
    ensures r.Err? ==> r.error == Security.NotEnoughPermission
    ensures r.Ok? ==> (r.value.total == |accounts| && r.value.page == params.page && r.value.size == params.size
                       && |r.value.items| <= params.size
                       && forall i :: 0 <= i < |r.value.items| ==>
                            Paging.Skip(params) + i < |accounts| && r.value.items[i] == accounts[Paging.Skip(params) + i])
  {
    var _ :- RequireSuperuser(caller);
    var items := Paging.Window(accounts, Paging.Skip(params), params.size);
    Ok(Paging.CreateResponse(items, |accounts|, params.page, params.size))
  }

  const NoPermission: Failure := Http(403, "Not enough permissions")

  /** The inline check of the `/admin/...` routes. */
  function AdminGuard(caller: Account): (r: Result<Account>)
    ensures r.Ok? <==> caller.isSuperuser
    ensures r.Err? ==> r.error == NoPermission
  {
    if caller.isSuperuser then Ok(caller) else Err(NoPermission)
  }

  predicate Selected(a: Account, isActive: Option<bool>, isSuperuser: Option<bool>) {
    (isActive.None? || a.isActive == isActive.value) && (isSuperuser.None? || a.isSuperuser == isSuperuser.value)
  }

  /** `admin_get_all_users`: the optional flags filter, then a page and the filtered total. */
  function AdminAllUsers(
    accounts: seq<Account>, caller: Account, isActive: Option<bool>, isSuperuser: Option<bool>, params: Paging.PageParams)
    : (r: Result<Paging.PaginatedResponse<Account>>)
    requires Paging.ValidParams(params)
    ensures r.Err? <==> !caller.isSuperuser
    ensures r.Err? ==> r.error == NoPermission
    ensures r.Ok? ==> (|r.value.items| <= params.size && r.value.total <= |accounts|
                       && r.value.total == |Filter(accounts, (a: Account) => Selected(a, isActive, isSuperuser))|
                       && forall a :: a in r.value.items ==> a in accounts && Selected(a, isActive, isSuperuser))
    ensures r.Ok? && isActive.None? && isSuperuser.None? ==> r.value.total == |accounts|
  {
    var _ :- AdminGuard(caller);
    var picked := Filter(accounts, (a: Account) => Selected(a, isActive, isSuperuser));
    FilterAll(accounts, (a: Account) => Selected(a, None, None));
    Ok(Paging.CreateResponse(Paging.Window(picked, Paging.Skip(params), params.size), |picked|, params.page, params.size))
  }

  /** Without filters the administrator listing is the plain listing. */
  lemma AdminListingWithoutFilters(accounts: seq<Account>, caller: Account, params: Paging.PageParams)
    requires Paging.ValidParams(params) && caller.isSuperuser
    ensures AdminAllUsers(accounts, caller, None, None, params) == GetUsers(accounts, caller, params)
  {
    FilterAll(accounts, (a: Account) => Selected(a, None, None));
    assert Filter(accounts, (a: Account) => Selected(a, None, None)) == accounts;
  }

  /** `admin_update_user_status`: 403, then 404, then the flag is set on that account alone. */
  function AdminUpdateStatus(accounts: seq<Account>, caller: Account, userId: nat, isActive: bool)
    : (r: Result<seq<Account>>)
    ensures !caller.isSuperuser ==> r == Err(NoPermission)
    ensures r.Ok? <==> caller.isSuperuser && exists a :: a in accounts && a.id == userId
    ensures caller.isSuperuser && r.Err? ==> r.error == UserNotFound
    ensures r.Ok? ==> (|r.value| == |accounts|
                       && forall i :: 0 <= i < |accounts| ==>
                            r.value[i] == if accounts[i].id == userId then accounts[i].(isActive := isActive) else accounts[i])
  {
    var _ :- AdminGuard(caller);
    if First(accounts, (a: Account) => a.id == userId).None? then Err(UserNotFound)
    else Ok(MapWhere(accounts, (a: Account) => a.id == userId, (a: Account) => a.(isActive := isActive)))
  }

  /** A deactivated account can no longer log in, whatever its password. */
  lemma DeactivatedCannotLogin(
    accounts: seq<Account>, caller: Account, userId: nat, login: string, password: string,
    verify: (string, string) -> bool, now: int, s: Security.TokenSettings, sign: Object -> string)
    requires AdminUpdateStatus(accounts, caller, userId, false).Ok?
    requires FindLogin(AdminUpdateStatus(accounts, caller, userId, false).value, login).Some?
    requires FindLogin(AdminUpdateStatus(accounts, caller, userId, false).value, login).value.id == userId
    ensures Login(AdminUpdateStatus(accounts, caller, userId, false).value, login, password, verify, now, s, sign).Err?
  {
    var t := AdminUpdateStatus(accounts, caller, userId, false).value;
    var a := FindLogin(t, login).value;
    var i :| 0 <= i < |t| && t[i] == a;
    assert accounts[i].id == userId;
  }
}
