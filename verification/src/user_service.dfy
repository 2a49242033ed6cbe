/**
 * The user service of app/services/user_service.py over a users table held
 * as a sequence of rows.  The random draw of `create_user` and the clock
 * are inputs, as are hashing (`hash`) and checking (`verify`) a password.
 * The profile columns a `UserUpdate` may set are kept in the shape of that
 * schema; an unset field of the update is None.
 */
module UserService {
  import opened Outcomes
  import opened Text
  import opened Tables
  import Paging
  import UserUtils
  import UserSchemas

  type Profile = UserSchemas.UserUpdate

  datatype User = User(
    id: nat, username: string, hashedPassword: string, bipupuId: string,
    isActive: bool, isSuperuser: bool, profile: Profile,
    updatedAt: Option<int>, lastActive: Option<int>)

  const EmptyProfile: Profile := UserSchemas.UserUpdate(None, None, None, None, None, None, None, None)

  /** The primary key: no two rows share an id. */
  predicate UniqueIds(users: seq<User>) {
    forall i, j :: 0 <= i < j < |users| ==> users[i].id != users[j].id
  }

  predicate HasId(users: seq<User>, id: nat) { exists u :: u in users && u.id == id }

  /** `get_user_by_id` */
  function UserById(users: seq<User>, id: nat): (r: Option<User>)
    ensures r.Some? <==> HasId(users, id)
    ensures r.Some? ==> r.value in users && r.value.id == id
  {
    First(users, (u: User) => u.id == id)
  }

  /** `str(n)` of a number in [10^(w-1), 10^w) has exactly w digits. */
  lemma {:induction false} DecimalWidth(n: nat, w: nat)
    requires w >= 1 && Pow10(w - 1) <= n < Pow10(w)
    ensures |ToDecimal(n)| == w
  {
    if w == 1 {
      assert Pow10(1) == 10;
    } else {
      assert Pow10(w - 1) == 10 * Pow10(w - 2);
      DecimalWidth(n / 10, w - 1);
    }
  }

  const MinDraw: nat := 10000000
  const MaxDraw: nat := 99999999

  /**
   * `create_user`: `draw` is `random.randint(10000000, 99999999)` and the
   * bipupu id is its decimal text.  The new user is active and no superuser.
   * A taken username violates the table's unique constraint; the error is
   * re-raised after the rollback.
   */
  function CreateUser(users: seq<User>, data: UserSchemas.UserCreate, draw: nat, hash: string -> string)
    : (r: Result<(seq<User>, User)>)
    requires MinDraw <= draw <= MaxDraw
    ensures r.Err? <==> exists u :: u in users && u.username == data.username
    ensures r.Err? ==> r.error == RuntimeErr
    ensures r.Ok? ==> (r.value.0 == users + [r.value.1]
                       && UserUtils.WellFormedId(r.value.1.bipupuId) && ParseDecimal(r.value.1.bipupuId) == draw
                       && r.value.1.username == data.username && r.value.1.hashedPassword == hash(data.password)
                       && r.value.1.profile.nickname == data.nickname
                       && r.value.1.isActive && !r.value.1.isSuperuser
                       && !HasId(users, r.value.1.id))
  {
    if First(users, (u: User) => u.username == data.username).Some? then Err(RuntimeErr)
    else
      assert Pow10(7) == MinDraw && Pow10(8) == MaxDraw + 1;
      DecimalWidth(draw, 8);
      var u := User(NextId(users, (x: User) => x.id), data.username, hash(data.password), ToDecimal(draw),
                    true, false, EmptyProfile.(nickname := data.nickname), None, None);
      Ok((users + [u], u))
  }

  /** A created user's bipupu id is one the generator in user_utils could have produced, never a service name. */
  lemma CreatedIdIsUserId(users: seq<User>, data: UserSchemas.UserCreate, draw: nat, hash: string -> string)
    requires MinDraw <= draw <= MaxDraw
    requires CreateUser(users, data, draw, hash).Ok?
    ensures var id := CreateUser(users, data, draw, hash).value.1.bipupuId;
      id == UserUtils.FormatId(draw) && !UserUtils.IsServiceAccount(id)
  {
    var id := CreateUser(users, data, draw, hash).value.1.bipupuId;
    ParsePadDecimal(draw, 8);
    assert Pow10(8) == MaxDraw + 1;
    SameDigits(id, UserUtils.FormatId(draw));
    UserUtils.GeneratedIdIsNotServiceAccount(id);
  }

  /** Two digit strings of one length with one value are one string. */
  lemma {:induction false} SameDigits(a: string, b: string)
    requires AllDigits(a) && AllDigits(b) && |a| == |b| && ParseDecimal(a) == ParseDecimal(b)
    ensures a == b
  {
    if a != [] {
      var n := |a| - 1;
      LastDigit(a);
      LastDigit(b);
      assert a[n] == b[n] by { SameDigitChar(a[n], b[n]); }
      SameDigits(a[..n], b[..n]);
      assert a == a[..n] + [a[n]] && b == b[..n] + [b[n]];
    }
  }

  /** A non-empty digit string's value splits into its prefix's value and its last digit. */
  lemma LastDigit(a: string)
    requires AllDigits(a) && a != []
    ensures AllDigits(a[..|a| - 1]) && IsDigit(a[|a| - 1])
    ensures ParseDecimal(a) / 10 == ParseDecimal(a[..|a| - 1])
    ensures ParseDecimal(a) % 10 == DigitValue(a[|a| - 1])
  {
    DivModUnique(ParseDecimal(a), 10, ParseDecimal(a[..|a| - 1]), DigitValue(a[|a| - 1]));
  }

  lemma SameDigitChar(c: char, d: char)
    requires IsDigit(c) && IsDigit(d) && DigitValue(c) == DigitValue(d)
    ensures c == d
  {
  }

  function Override<T>(current: Option<T>, given: Option<T>): Option<T> {
    if given.Some? then given else current
  }

  /** `model_dump(exclude_unset=True)` applied with `setattr`: given fields replace, the rest stay. */
  function ApplyUpdate(p: Profile, upd: Profile): (r: Profile)
    ensures upd.nickname.Some? ==> r.nickname == upd.nickname
    ensures upd.nickname.None? ==> r.nickname == p.nickname
    ensures upd.zodiac.Some? ==> r.zodiac == upd.zodiac
    ensures upd.zodiac.None? ==> r.zodiac == p.zodiac
    ensures upd.age.Some? ==> r.age == upd.age
    ensures upd.age.None? ==> r.age == p.age
    ensures upd.bazi.Some? ==> r.bazi == upd.bazi
    ensures upd.bazi.None? ==> r.bazi == p.bazi
    ensures upd.gender.Some? ==> r.gender == upd.gender
    ensures upd.gender.None? ==> r.gender == p.gender
    ensures upd.mbti.Some? ==> r.mbti == upd.mbti
    ensures upd.mbti.None? ==> r.mbti == p.mbti
    ensures upd.birthTime.Some? ==> r.birthTime == upd.birthTime
    ensures upd.birthTime.None? ==> r.birthTime == p.birthTime
    ensures upd.birthplace.Some? ==> r.birthplace == upd.birthplace
    ensures upd.birthplace.None? ==> r.birthplace == p.birthplace
  {
    UserSchemas.UserUpdate(
      Override(p.nickname, upd.nickname), Override(p.zodiac, upd.zodiac), Override(p.age, upd.age),
      Override(p.bazi, upd.bazi), Override(p.gender, upd.gender), Override(p.mbti, upd.mbti),
      Override(p.birthTime, upd.birthTime), Override(p.birthplace, upd.birthplace))
  }

  /** Applying the same update twice is applying it once; an empty update changes nothing. */
  lemma ApplyUpdateIdempotent(p: Profile, upd: Profile)
    ensures ApplyUpdate(ApplyUpdate(p, upd), upd) == ApplyUpdate(p, upd)
    ensures ApplyUpdate(p, EmptyProfile) == p
  {
  }

  /** `update_user`: only the profile and the update time change. */
  function UpdateUser(u: User, upd: Profile, now: int): (r: User)
    ensures r.profile == ApplyUpdate(u.profile, upd) && r.updatedAt == Some(now)
    ensures r.(profile := u.profile, updatedAt := u.updatedAt) == u
  {
    u.(profile := ApplyUpdate(u.profile, upd), updatedAt := Some(now))
  }

  /**
   * `update_password`: a wrong old password answers False and leaves the
   * user untouched; otherwise the new password's hash replaces the old.
   */
  function UpdatePassword(
    u: User, oldPassword: string, newPassword: string,
    verify: (string, string) -> bool, hash: string -> string, now: int)
    : (r: (bool, User))
    ensures r.0 <==> verify(oldPassword, u.hashedPassword)
    ensures !r.0 ==> r.1 == u
    ensures r.0 ==> r.1 == u.(hashedPassword := hash(newPassword), updatedAt := Some(now))
  {
    if !verify(oldPassword, u.hashedPassword) then (false, u)
    else (true, u.(hashedPassword := hash(newPassword), updatedAt := Some(now)))
  }

  /**
   * With a hash that its checker accepts, a changed password takes effect:
   * the new password now passes as the old one of a further change.
   */
  lemma PasswordChangeTakesEffect(
    u: User, oldPassword: string, newPassword: string,
    verify: (string, string) -> bool, hash: string -> string, now: int, later: int, another: string)
    requires forall p :: verify(p, hash(p))
    requires UpdatePassword(u, oldPassword, newPassword, verify, hash, now).0
    ensures UpdatePassword(UpdatePassword(u, oldPassword, newPassword, verify, hash, now).1,
                           newPassword, another, verify, hash, later).0
  {
  }

  /** `delete_user`: False for a missing id; otherwise the row is gone and every other row stays. */
  function DeleteUser(users: seq<User>, id: nat): (r: (bool, seq<User>))
    ensures r.0 <==> HasId(users, id)
    ensures forall u :: u in r.1 <==> u in users && u.id != id
    ensures !r.0 ==> r.1 == users
    ensures r.0 ==> |r.1| < |users|
  {
    if UserById(users, id).None? then
      FilterAll(users, (u: User) => u.id != id);
      (false, users)
    else
      var rest := Filter(users, (u: User) => u.id != id);
      FilterDropsMatch(users, id);
      (true, rest)
  }

  lemma {:induction false} FilterDropsMatch(users: seq<User>, id: nat)
    requires HasId(users, id)
    ensures |Filter(users, (u: User) => u.id != id)| < |users|
  {
    var u :| u in users && u.id == id;
    if users[0].id == id {
      assert |Filter(users[1..], (u: User) => u.id != id)| <= |users[1..]|;
    } else {
      assert u in users[1..];
      FilterDropsMatch(users[1..], id);
    }
  }

  /** `deactivate_user` (active == false) and `activate_user` (active == true). */
  function SetActive(users: seq<User>, id: nat, active: bool, now: int): (r: (bool, seq<User>))
    ensures r.0 <==> HasId(users, id)
    ensures !r.0 ==> r.1 == users
    ensures |r.1| == |users|
    ensures forall i :: 0 <= i < |users| && users[i].id == id ==>
              r.1[i] == users[i].(isActive := active, updatedAt := Some(now))
    ensures forall i :: 0 <= i < |users| && users[i].id != id ==> r.1[i] == users[i]
  {
    if UserById(users, id).None? then (false, users)
    else (true, MapWhere(users, (u: User) => u.id == id, (u: User) => u.(isActive := active, updatedAt := Some(now))))
  }

  function DeactivateUser(users: seq<User>, id: nat, now: int): (r: (bool, seq<User>))
    ensures r.0 <==> HasId(users, id)
    ensures forall u :: u in r.1 && u.id == id ==> !u.isActive
    ensures r.0 ==> CountActiveUsers(r.1) <= CountActiveUsers(users)
  {
    var r := SetActive(users, id, false, now);
    ActiveCountFalls(users, r.1);
    r
  }

  function ActivateUser(users: seq<User>, id: nat, now: int): (r: (bool, seq<User>))
    ensures r.0 <==> HasId(users, id)
    ensures forall u :: u in r.1 && u.id == id ==> u.isActive
    ensures r.0 ==> CountActiveUsers(users) <= CountActiveUsers(r.1)
  {
    var r := SetActive(users, id, true, now);
    ActiveCountFalls(r.1, users);
    r
  }

  function UserNotFound(id: nat): Failure {
    Custom(NotFoundError, "用户不存在: user_id=" + ToDecimal(id))
  }

  /** `toggle_user_status`: NotFound for a missing id; otherwise the activity flag flips. */
  function ToggleUserStatus(users: seq<User>, id: nat, now: int): (r: Result<(seq<User>, User)>)
    ensures r.Err? <==> !HasId(users, id)
    ensures r.Err? ==> r.error == UserNotFound(id)
    ensures r.Ok? ==> (|r.value.0| == |users| && r.value.1 in r.value.0 && r.value.1.id == id
                       && forall i :: 0 <= i < |users| ==>
                            r.value.0[i] == (if users[i].id == id
                                             then users[i].(isActive := !users[i].isActive, updatedAt := Some(now))
                                             else users[i]))
  {
    var u := UserById(users, id);
    if u.None? then Err(UserNotFound(id))
    else
      var flip := (x: User) => x.(isActive := !x.isActive, updatedAt := Some(now));
      var t := MapWhere(users, (x: User) => x.id == id, flip);
      var i :| 0 <= i < |users| && users[i] == u.value;
      assert t[i] == flip(u.value);
      Ok((t, flip(u.value)))
  }

  /** Toggling twice restores every user's activity; only the update time moves. */
  lemma ToggleTwiceRestores(users: seq<User>, id: nat, now: int, later: int)
    requires HasId(users, id)
    ensures var once := ToggleUserStatus(users, id, now).value.0;
      var twice := ToggleUserStatus(once, id, later);
      twice.Ok? && |twice.value.0| == |users|
      && forall i :: 0 <= i < |users| ==>
           twice.value.0[i] == (if users[i].id == id then users[i].(updatedAt := Some(later)) else users[i])
  {
    var once := ToggleUserStatus(users, id, now).value.0;
    var u :| u in users && u.id == id;
    var k :| 0 <= k < |users| && users[k] == u;
    assert once[k].id == id && once[k] in once;
    var twice := ToggleUserStatus(once, id, later);
    assert twice.Ok?;
    forall i | 0 <= i < |users|
      ensures twice.value.0[i] == (if users[i].id == id then users[i].(updatedAt := Some(later)) else users[i])
    {
      assert once[i].id == users[i].id;
    }
  }

  /** `update_last_active`: the user's last activity becomes now. */
  function UpdateLastActive(u: User, now: int): (r: User)
    ensures r.lastActive == Some(now) && r.(lastActive := u.lastActive) == u
  {
    u.(lastActive := Some(now))
  }

  function IsActive(u: User): bool { u.isActive }

  /** `get_active_users`: the active rows in table order, from `skip` on, at most `limit` of them. */
  function ActiveUsers(users: seq<User>, skip: nat, limit: nat): (r: seq<User>)
    ensures |r| <= limit
    ensures forall u :: u in r ==> u in users && u.isActive
    ensures forall i :: 0 <= i < |r| ==> skip + i < |Filter(users, IsActive)| && r[i] == Filter(users, IsActive)[skip + i]
    ensures |r| == if skip >= |Filter(users, IsActive)| then 0 else Paging.Min(limit, |Filter(users, IsActive)| - skip)
  {
    Paging.Window(Filter(users, IsActive), skip, limit)
  }

  /** `username ILIKE %q%` or `nickname ILIKE %q%`; a null nickname matches nothing. */
  predicate Matches(u: User, query: string) {
    ContainsIgnoringCase(u.username, query)
    || (u.profile.nickname.Some? && ContainsIgnoringCase(u.profile.nickname.value, query))
  }

  /** `search_users`: active users matching the query, paged like `get_active_users`. */
  function SearchUsers(users: seq<User>, query: string, skip: nat, limit: nat): (r: seq<User>)
    ensures |r| <= limit
    ensures forall u :: u in r ==> u in users && u.isActive && Matches(u, query)
  {
    Paging.Window(Filter(users, (u: User) => u.isActive && Matches(u, query)), skip, limit)
  }

  /** The empty query matches every name, so searching for it lists the active users. */
  lemma SearchEmptyIsActiveList(users: seq<User>, skip: nat, limit: nat)
    ensures SearchUsers(users, "", skip, limit) == ActiveUsers(users, skip, limit)
  {
    forall u: User ensures Matches(u, "") {
      assert OccursAt(LowerString(u.username), LowerString(""), 0);
    }
    FilterSameCondition(users, (u: User) => u.isActive && Matches(u, ""), IsActive);
  }

  lemma {:induction false} FilterSameCondition(xs: seq<User>, a: User -> bool, b: User -> bool)
    requires forall x :: a(x) == b(x)
    ensures Filter(xs, a) == Filter(xs, b)
  {
    if xs != [] {
      FilterSameCondition(xs[1..], a, b);
    }
  }

  /** `count_users` */
  function CountUsers(users: seq<User>): (n: nat)
    ensures n == |users|
  {
    |users|
  }

  /** `count_active_users`: never more than all users, and all of them exactly when every user is active. */
  function CountActiveUsers(users: seq<User>): (n: nat)
    ensures n <= CountUsers(users)
    ensures n == CountUsers(users) <==> forall u :: u in users ==> u.isActive
    ensures n == |Filter(users, IsActive)|
  {
    var n := |Filter(users, IsActive)|;
    if forall u :: u in users ==> u.isActive then
      FilterAll(users, IsActive);
      n
    else
      var u :| u in users && !u.isActive;
      FilterMissesOne(users, u);
      n
  }

  lemma {:induction false} FilterMissesOne(users: seq<User>, v: User)
    requires v in users && !v.isActive
    ensures |Filter(users, IsActive)| < |users|
  {
    if users[0] == v {
      assert |Filter(users[1..], IsActive)| <= |users[1..]|;
    } else {
      assert v in users[1..];
      FilterMissesOne(users[1..], v);
    }
  }

  /**
   * Row by row, `after` is active only where `before` is: then `after`
   * counts no more active users than `before`.
   */
  lemma {:induction false} ActiveCountFalls(before: seq<User>, after: seq<User>)
    requires |before| == |after|
    requires forall i :: 0 <= i < |after| && after[i].isActive ==> before[i].isActive
    ensures |Filter(after, IsActive)| <= |Filter(before, IsActive)|
  {
    if after != [] {
      assert after[0].isActive ==> before[0].isActive;
      ActiveCountFalls(before[1..], after[1..]);
    }
  }

  /** Deactivating an active user lowers the active count by exactly one when ids are unique. */
  lemma DeactivateCountsOne(users: seq<User>, id: nat, now: int)
    requires UniqueIds(users)
    requires exists u :: u in users && u.id == id && u.isActive
    ensures CountActiveUsers(DeactivateUser(users, id, now).1) + 1 == CountActiveUsers(users)
  {
    var after := SetActive(users, id, false, now).1;
    assert DeactivateUser(users, id, now).1 == after;
    var k :| 0 <= k < |users| && users[k].id == id && users[k].isActive;
    OnlyRowOfId(users, id, k);
    DeactivateOneStep(users, after, k);
  }

  /** With unique ids, the row at `k` is the only one of its id. */
  lemma OnlyRowOfId(users: seq<User>, id: nat, k: nat)
    requires UniqueIds(users) && k < |users| && users[k].id == id
    ensures forall i :: 0 <= i < |users| && i != k ==> users[i].id != id
  {
  }

  lemma {:induction false} DeactivateOneStep(before: seq<User>, after: seq<User>, k: nat)
    requires |before| == |after| && k < |before|
    requires before[k].isActive && !after[k].isActive
    requires forall i :: 0 <= i < |before| && i != k ==> after[i].isActive == before[i].isActive
    ensures |Filter(after, IsActive)| + 1 == |Filter(before, IsActive)|
  {
    if k == 0 {
      SameActivity(before[1..], after[1..]);
    } else {
      DeactivateOneStep(before[1..], after[1..], k - 1);
    }
  }

  lemma {:induction false} SameActivity(before: seq<User>, after: seq<User>)
    requires |before| == |after|
    requires forall i :: 0 <= i < |before| ==> after[i].isActive == before[i].isActive
    ensures |Filter(after, IsActive)| == |Filter(before, IsActive)|
  {
    if before != [] {
      SameActivity(before[1..], after[1..]);
    }
  }
}
