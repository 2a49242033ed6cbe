/**
 * Start-up seeding of app/db/init_data.py: the default administrator and
 * the two built-in service accounts, both idempotent, and the wrapper that
 * swallows every failure so start-up goes on.
 *
 * The administrator settings arrive as `Config.AdminField` leaves them
 * (None for an empty variable).  The bipupu id is the outcome of
 * `generate_bipupu_id` (see UserUtils.GenerateBipupuId), password hashing
 * is the input `hash`, and whether the services' commit succeeds is the
 * input `commitOk`.  Service names are unique in the table.
 */
module InitData {
  import opened Outcomes
  import opened Tables
  import UserService
  import ServiceAccountModel

  type User = UserService.User
  type ServiceAccount = ServiceAccountModel.ServiceAccount

  const MaxPasswordLength: nat := 72

  /** `password[:72]` */
  function Truncate(password: string): (r: string)
    ensures |r| <= MaxPasswordLength && |r| <= |password| && r == password[..|r|]
    ensures |password| <= MaxPasswordLength ==> r == password
  {
    if |password| <= MaxPasswordLength then password else password[..MaxPasswordLength]
  }

  predicate HasUsername(users: seq<User>, name: string) {
    exists u :: u in users && u.username == name
  }

  /**
   * `create_default_admin_user`: slicing a missing password raises; an
   * existing user of the admin name, whatever its flags, means nothing is
   * done; otherwise a new active superuser is added.  A missing username
   * matches no row and the insert of a NULL username fails.
   */
  function CreateDefaultAdmin(
    users: seq<User>, username: Option<string>, password: Option<string>,
    newId: Result<string>, hash: string -> string)
    : (r: Result<seq<User>>)
    ensures password.None? ==> r.Err?
    ensures username.None? ==> r.Err?
    ensures password.Some? && username.Some? && HasUsername(users, username.value) ==> r == Ok(users)
    ensures password.Some? && username.Some? && !HasUsername(users, username.value) ==>
              (r.Ok? <==> newId.Ok?)
    ensures r.Ok? && r.value != users ==>
              (password.Some? && username.Some? && newId.Ok?
               && exists admin: User ::
                    r.value == users + [admin]
                    && admin.username == username.value && admin.bipupuId == newId.value
                    && admin.hashedPassword == hash(Truncate(password.value))
                    && admin.isActive && admin.isSuperuser
                    && !UserService.HasId(users, admin.id))
  {
    if password.None? then Err(RuntimeErr)
    else
      var secret := Truncate(password.value);
      if username.Some? && First(users, (u: User) => u.username == username.value).Some? then Ok(users)
      else if newId.Err? then Err(newId.error)
      else if username.None? then Err(RuntimeErr)
      else
        var admin := UserService.User(
          NextId(users, (u: User) => u.id), username.value, hash(secret), newId.value,
          true, true, UserService.EmptyProfile, None, None);
        Ok(users + [admin])
  }

  /** Once the administrator exists, creating it again changes nothing. */
  lemma AdminCreationIdempotent(
    users: seq<User>, username: string, password: string, newId: Result<string>, again: Result<string>,
    hash: string -> string)
    requires CreateDefaultAdmin(users, Some(username), Some(password), newId, hash).Ok?
    ensures var once := CreateDefaultAdmin(users, Some(username), Some(password), newId, hash).value;
      CreateDefaultAdmin(once, Some(username), Some(password), again, hash) == Ok(once)
  {
    var once := CreateDefaultAdmin(users, Some(username), Some(password), newId, hash).value;
    if !HasUsername(users, username) {
      assert once[|users|] in once;
    } else {
      assert once == users;
    }
  }

  datatype Seed = Seed(name: string, description: string, pushTime: nat, isActive: bool)

  /** Both built-in services push at 09:00 by default and are active. */
  const NineAm: nat := 9 * 60
  const Seeds: seq<Seed> := [
    Seed("weather.service", "每日天气预报推送服务", NineAm, true),
    Seed("cosmic.fortune", "每日运势推送服务", NineAm, true)]

  /** An empty description is falsy and never assigned to an existing row, so any description matches it. */
  predicate Matches(s: ServiceAccount, seed: Seed) {
    (seed.description == "" || s.description == Some(seed.description))
    && s.defaultPushTime == Some(seed.pushTime) && s.isActive == seed.isActive
  }

  /**
   * An existing service brought in line with its seed: only differing
   * fields are assigned, so an up-to-date row is not touched at all and
   * its update time does not move.
   */
  function Reconcile(s: ServiceAccount, seed: Seed, now: int): (r: ServiceAccount)
    ensures Matches(r, seed) && r.name == s.name && r.id == s.id && r.avatarData == s.avatarData
    ensures Matches(s, seed) <==> r == s
  {
    var describe := seed.description != "" && s.description != Some(seed.description);
    var retime := s.defaultPushTime != Some(seed.pushTime);
    var activate := s.isActive != seed.isActive;
    if !(describe || retime || activate) then s
    else s.(description := if describe then Some(seed.description) else s.description,
            defaultPushTime := Some(seed.pushTime), isActive := seed.isActive, updatedAt := Some(now))
  }

  /** The seed's name has a row, and every row of that name matches the seed. */
  predicate HasSeed(services: seq<ServiceAccount>, seed: Seed) {
    (exists s :: s in services && s.name == seed.name)
    && forall s :: s in services && s.name == seed.name ==> Matches(s, seed)
  }

  /** The loop body for one seed: reconcile the row of that name, or add it. */
  function SeedService(services: seq<ServiceAccount>, seed: Seed, now: int): (r: seq<ServiceAccount>)
    ensures HasSeed(r, seed)
    ensures forall s :: s in r && s.name != seed.name ==> s in services
    ensures forall s :: s in services && s.name != seed.name ==> s in r
    ensures HasSeed(services, seed) ==> r == services
  {
    if First(services, (s: ServiceAccount) => s.name == seed.name).Some? then
      var r := MapWhere(services, (s: ServiceAccount) => s.name == seed.name, (s: ServiceAccount) => Reconcile(s, seed, now));
      ReconciledRows(services, r, seed, now);
      r
    else
      var created := ServiceAccountModel.ServiceAccount(
        NextId(services, (s: ServiceAccount) => s.id), seed.name, Some(seed.description), None,
        seed.isActive, Some(seed.pushTime), None);
      services + [created]
  }

  /** Reconciling every row of the seed's name, when there is one, seeds it and touches no other row. */
  lemma ReconciledRows(services: seq<ServiceAccount>, r: seq<ServiceAccount>, seed: Seed, now: int)
    requires exists s :: s in services && s.name == seed.name
    requires |r| == |services|
    requires forall i :: 0 <= i < |services| ==>
               r[i] == if services[i].name == seed.name then Reconcile(services[i], seed, now) else services[i]
    ensures HasSeed(r, seed)
    ensures forall s :: s in r && s.name != seed.name ==> s in services
    ensures forall s :: s in services && s.name != seed.name ==> s in r
    ensures HasSeed(services, seed) ==> r == services
  {
    var x :| x in services && x.name == seed.name;
    var k :| 0 <= k < |services| && services[k] == x;
    assert r[k].name == seed.name;
    forall s | s in r
      ensures s.name == seed.name ==> Matches(s, seed)
      ensures s.name != seed.name ==> s in services
    {
      var i :| 0 <= i < |r| && r[i] == s;
    }
    forall s | s in services && s.name != seed.name
      ensures s in r
    {
      var i :| 0 <= i < |services| && services[i] == s;
      assert r[i] == s;
    }
    if HasSeed(services, seed) {
      forall i | 0 <= i < |services|
        ensures r[i] == services[i]
      {
        if services[i].name == seed.name {
          assert Matches(services[i], seed);
        }
      }
    }
  }

  /** Every seed has a row, and every row of a seed's name matches it. */
  predicate Seeded(services: seq<ServiceAccount>) {
    forall k :: 0 <= k < |Seeds| ==> HasSeed(services, Seeds[k])
  }

  /** `create_default_services`: both seeds in order; a failed commit rolls everything back and is swallowed. */
  function CreateDefaultServices(services: seq<ServiceAccount>, now: int, commitOk: bool): (r: seq<ServiceAccount>)
    ensures !commitOk ==> r == services
    ensures commitOk ==> Seeded(r)
    ensures Seeded(services) ==> r == services
  {
    var staged := SeedService(SeedService(services, Seeds[0], now), Seeds[1], now);
    SeedingSeeds(services, now);
    if commitOk then staged else services
  }

  lemma SeedingSeeds(services: seq<ServiceAccount>, now: int)
    ensures Seeded(SeedService(SeedService(services, Seeds[0], now), Seeds[1], now))
    ensures Seeded(services) ==> SeedService(SeedService(services, Seeds[0], now), Seeds[1], now) == services
  {
    SeedingCovers(services, now);
    if Seeded(services) {
      SeedingSeededIsNoOp(services, now);
    }
  }

  /** A step that keeps every row not of the name `changed` leaves another seed's rows as they were. */
  lemma KeepsOtherSeed(before: seq<ServiceAccount>, after: seq<ServiceAccount>, changed: string, other: Seed)
    requires changed != other.name && HasSeed(before, other)
    requires forall s :: s in after && s.name != changed ==> s in before
    requires forall s :: s in before && s.name != changed ==> s in after
    ensures HasSeed(after, other)
  {
    var x :| x in before && x.name == other.name;
    assert x in after;
  }

  /** Seeding two differently named seeds in turn leaves both seeded. */
  lemma TwoSeedsCover(services: seq<ServiceAccount>, a: Seed, b: Seed, now: int)
    requires a.name != b.name
    ensures var staged := SeedService(SeedService(services, a, now), b, now);
      HasSeed(staged, a) && HasSeed(staged, b)
  {
    var mid := SeedService(services, a, now);
    KeepsOtherSeed(mid, SeedService(mid, b, now), b.name, a);
  }

  /** After both seeds every seed's name has a row, and every such row matches its seed. */
  lemma SeedingCovers(services: seq<ServiceAccount>, now: int)
    ensures Seeded(SeedService(SeedService(services, Seeds[0], now), Seeds[1], now))
  {
    assert Seeds[1].name[0] != Seeds[0].name[0];
    TwoSeedsCover(services, Seeds[0], Seeds[1], now);
  }

  /** Both seeds leave an already seeded table as it is. */
  lemma SeedingSeededIsNoOp(services: seq<ServiceAccount>, now: int)
    requires Seeded(services)
    ensures SeedService(SeedService(services, Seeds[0], now), Seeds[1], now) == services
  {
    assert HasSeed(services, Seeds[0]) && HasSeed(services, Seeds[1]);
  }

  /**
   * `init_default_data`: the administrator first, then the services; a
   * failure of the first skips the second, and no failure escapes.
   */
  function InitDefaultData(
    users: seq<User>, services: seq<ServiceAccount>, username: Option<string>, password: Option<string>,
    newId: Result<string>, hash: string -> string, now: int, commitOk: bool)
    : (r: (seq<User>, seq<ServiceAccount>))
    ensures CreateDefaultAdmin(users, username, password, newId, hash).Err? ==> r == (users, services)
    ensures CreateDefaultAdmin(users, username, password, newId, hash).Ok? ==>
              r == (CreateDefaultAdmin(users, username, password, newId, hash).value,
                    CreateDefaultServices(services, now, commitOk))
  {
    var admin := CreateDefaultAdmin(users, username, password, newId, hash);
    if admin.Err? then (users, services)
    else (admin.value, CreateDefaultServices(services, now, commitOk))
  }

  /**
   * A run that created or found the administrator and committed the
   * services leaves nothing for a second run to do, whatever that run's id
   * draw, clock or commit outcome.
   */
  lemma InitIdempotent(
    users: seq<User>, services: seq<ServiceAccount>, username: string, password: string,
    newId: Result<string>, again: Result<string>, hash: string -> string, now: int, later: int, commitOk: bool)
    requires CreateDefaultAdmin(users, Some(username), Some(password), newId, hash).Ok?
    ensures var once := InitDefaultData(users, services, Some(username), Some(password), newId, hash, now, true);
      InitDefaultData(once.0, once.1, Some(username), Some(password), again, hash, later, commitOk) == once
  {
    AdminCreationIdempotent(users, username, password, newId, again, hash);
  }
}
