/**
 * The `subscription_types` and `user_subscriptions` tables
 * (app/models/subscription.py) and the find-or-create upsert the client
 * and management routes and the settings service share.
 */
module SubscriptionStore {
  import opened Outcomes
  import opened Json
  import opened Tables

  datatype SubscriptionType = SubscriptionType(
    id: nat, name: string, description: Option<string>, category: string, isActive: bool, defaultSettings: Object)

  /** The per-user settings columns of a subscription. */
  datatype Settings = Settings(
    isEnabled: bool, customSettings: Object, timeStart: string, timeEnd: string, timezone: string)

  datatype UserSubscription = UserSubscription(id: nat, userId: nat, typeId: nat, settings: Settings)

  /** Column defaults of a new `UserSubscription`. */
  const DefaultStart: string := "09:00"
  const DefaultEnd: string := "22:00"
  const DefaultTimezone: string := "Asia/Shanghai"

  /** Type names are unique (`unique=True` on the column), and so are ids. */
  predicate UniqueTypes(ts: seq<SubscriptionType>) {
    forall i, j :: 0 <= i < j < |ts| ==> ts[i].name != ts[j].name && ts[i].id != ts[j].id
  }

  /** At most one subscription per (user, type), and every one names an existing type. */
  predicate WellFormed(ts: seq<SubscriptionType>, subs: seq<UserSubscription>) {
    (forall i, j :: 0 <= i < j < |subs| ==> !(subs[i].userId == subs[j].userId && subs[i].typeId == subs[j].typeId))
    && (forall s :: s in subs ==> exists t :: t in ts && t.id == s.typeId)
  }

  function FindType(ts: seq<SubscriptionType>, id: nat): (r: Option<SubscriptionType>)
    ensures r.Some? ==> r.value in ts && r.value.id == id
    ensures r.None? <==> forall t :: t in ts ==> t.id != id
  {
    First(ts, (t: SubscriptionType) => t.id == id)
  }

  /** `filter(id == ..., is_active == True).first()`. */
  function FindActiveType(ts: seq<SubscriptionType>, id: nat): (r: Option<SubscriptionType>)
    ensures r.Some? ==> r.value in ts && r.value.id == id && r.value.isActive
    ensures r.None? <==> forall t :: t in ts ==> !(t.id == id && t.isActive)
  {
    First(ts, (t: SubscriptionType) => t.id == id && t.isActive)
  }

  function FindNamed(ts: seq<SubscriptionType>, name: string): (r: Option<SubscriptionType>)
    ensures r.Some? ==> r.value in ts && r.value.name == name
    ensures r.None? <==> forall t :: t in ts ==> t.name != name
  {
    First(ts, (t: SubscriptionType) => t.name == name)
  }

  function FindSubscription(subs: seq<UserSubscription>, userId: nat, typeId: nat): (r: Option<UserSubscription>)
    ensures r.Some? ==> r.value in subs && r.value.userId == userId && r.value.typeId == typeId
    ensures r.None? <==> forall s :: s in subs ==> !(s.userId == userId && s.typeId == typeId)
  {
    First(subs, (s: UserSubscription) => s.userId == userId && s.typeId == typeId)
  }

  /** Python `value or fallback` on an optional string: None and "" fall back. */
  function OrString(value: Option<string>, fallback: string): (r: string)
    ensures value.Some? && value.value != "" ==> r == value.value
    ensures value.None? || value.value == "" ==> r == fallback
  {
    if value.Some? && value.value != "" then value.value else fallback
  }

  /** `requested or type.default_settings or {}`: an absent or empty dict falls back. */
  function OrSettings(requested: Option<Object>, typeDefault: Object): (r: Object)
    ensures requested.Some? && requested.value != map[] ==> r == requested.value
    ensures requested.None? || requested.value == map[] ==> r == typeDefault
  {
    if requested.Some? && requested.value != map[] then requested.value else typeDefault
  }

  /** What a subscribe or upsert request carries; `None` is a field not given. */
  datatype SettingsRequest = SettingsRequest(
    isEnabled: bool, customSettings: Option<Object>, timeStart: Option<string>, timeEnd: Option<string>,
    timezone: Option<string>)

  /** The settings a new record receives: each given truthy value, else the default. */
  function NewSettings(t: SubscriptionType, req: SettingsRequest): (s: Settings)
    ensures s.isEnabled == req.isEnabled
    ensures s.customSettings == OrSettings(req.customSettings, t.defaultSettings)
    ensures s.timeStart == OrString(req.timeStart, DefaultStart) && s.timeEnd == OrString(req.timeEnd, DefaultEnd)
    ensures s.timezone == OrString(req.timezone, DefaultTimezone)
  {
    Settings(req.isEnabled, OrSettings(req.customSettings, t.defaultSettings),
      OrString(req.timeStart, DefaultStart), OrString(req.timeEnd, DefaultEnd), OrString(req.timezone, DefaultTimezone))
  }

  /** The settings an existing record ends with: `is_enabled` overwritten, the rest only where given. */
  function MergeSettings(prior: Settings, req: SettingsRequest): (s: Settings)
    ensures s.isEnabled == req.isEnabled
    ensures req.customSettings.None? ==> s.customSettings == prior.customSettings
    ensures req.customSettings.Some? ==> s.customSettings == req.customSettings.value
    ensures req.timeStart.None? ==> s.timeStart == prior.timeStart
    ensures req.timeStart.Some? ==> s.timeStart == req.timeStart.value
    ensures req.timeEnd.None? ==> s.timeEnd == prior.timeEnd
    ensures req.timeEnd.Some? ==> s.timeEnd == req.timeEnd.value
    ensures req.timezone.None? ==> s.timezone == prior.timezone
    ensures req.timezone.Some? ==> s.timezone == req.timezone.value
  {
    Settings(req.isEnabled,
      if req.customSettings.Some? then req.customSettings.value else prior.customSettings,
      if req.timeStart.Some? then req.timeStart.value else prior.timeStart,
      if req.timeEnd.Some? then req.timeEnd.value else prior.timeEnd,
      if req.timezone.Some? then req.timezone.value else prior.timezone)
  }

  /**
   * Find the caller's record for type `t` and update it, or create one:
   * the result is the table afterwards and the record written.
   */
  function Upsert(subs: seq<UserSubscription>, userId: nat, t: SubscriptionType, req: SettingsRequest)
    : (r: (seq<UserSubscription>, UserSubscription))
    ensures r.1.userId == userId && r.1.typeId == t.id && r.1.settings.isEnabled == req.isEnabled
    ensures FindSubscription(subs, userId, t.id).None? ==>
      r.0 == subs + [r.1] && r.1.settings == NewSettings(t, req) && forall s :: s in subs ==> s.id != r.1.id
    ensures FindSubscription(subs, userId, t.id).Some? ==> var prior := FindSubscription(subs, userId, t.id).value;
      r.1 == prior.(settings := MergeSettings(prior.settings, req)) && |r.0| == |subs|
      && forall i :: 0 <= i < |subs| ==> r.0[i] == if subs[i] == prior then r.1 else subs[i]
  {
    match FindSubscription(subs, userId, t.id)
    case None =>
      var s := UserSubscription(NextId(subs, (s: UserSubscription) => s.id), userId, t.id, NewSettings(t, req));
      (subs + [s], s)
    case Some(prior) =>
      var s := prior.(settings := MergeSettings(prior.settings, req));
      (MapWhere(subs, (x: UserSubscription) => x == prior, (x: UserSubscription) => s), s)
  }

  /** An upsert against an existing type keeps one record per (user, type) and every type reference valid. */
  lemma UpsertKeepsWellFormed(ts: seq<SubscriptionType>, subs: seq<UserSubscription>, userId: nat, t: SubscriptionType, req: SettingsRequest)
    requires WellFormed(ts, subs) && t in ts
    ensures WellFormed(ts, Upsert(subs, userId, t, req).0)
    ensures FindSubscription(Upsert(subs, userId, t, req).0, userId, t.id) == Some(Upsert(subs, userId, t, req).1)
  {
    var (r, s) := Upsert(subs, userId, t, req);
    if FindSubscription(subs, userId, t.id).None? {
      InsertKeepsWellFormed(ts, subs, s);
      FirstAfterMisses(subs, s, (x: UserSubscription) => x.userId == userId && x.typeId == t.id);
    } else {
      var prior := FindSubscription(subs, userId, t.id).value;
      var k := ReplaceKeepsWellFormed(ts, subs, prior, s);
      FirstUnique(r, k, (x: UserSubscription) => x.userId == userId && x.typeId == t.id);
    }
  }

  lemma InsertKeepsWellFormed(ts: seq<SubscriptionType>, subs: seq<UserSubscription>, s: UserSubscription)
    requires WellFormed(ts, subs)
    requires exists t :: t in ts && t.id == s.typeId
    requires forall x :: x in subs ==> !(x.userId == s.userId && x.typeId == s.typeId)
    ensures WellFormed(ts, subs + [s])
  {
    var r := subs + [s];
    forall i, j | 0 <= i < j < |r| ensures !(r[i].userId == r[j].userId && r[i].typeId == r[j].typeId) {
      if j == |subs| {
        assert r[i] in subs;
      } else {
        assert r[i] == subs[i] && r[j] == subs[j];
      }
    }
  }

  /**
   * Replacing the record `prior` by one with the same user and type keeps
   * the table well formed; `prior` sits at the returned index and nowhere else.
   */
  lemma ReplaceKeepsWellFormed(ts: seq<SubscriptionType>, subs: seq<UserSubscription>, prior: UserSubscription,
    s: UserSubscription) returns (k: nat)
    requires WellFormed(ts, subs) && prior in subs
    requires s.userId == prior.userId && s.typeId == prior.typeId
    ensures var r := MapWhere(subs, (x: UserSubscription) => x == prior, (x: UserSubscription) => s);
      WellFormed(ts, r) && k < |r| && r[k] == s
      && forall i :: 0 <= i < |r| && i != k ==> !(r[i].userId == s.userId && r[i].typeId == s.typeId)
  {
    var r := MapWhere(subs, (x: UserSubscription) => x == prior, (x: UserSubscription) => s);
    k :| 0 <= k < |subs| && subs[k] == prior;
    assert forall i :: 0 <= i < |subs| ==> r[i].userId == subs[i].userId && r[i].typeId == subs[i].typeId;
    SameKeysKeepWellFormed(ts, subs, r);
    forall i | 0 <= i < |r| && i != k
      ensures !(r[i].userId == s.userId && r[i].typeId == s.typeId)
    {
      if i < k {
        assert !(subs[i].userId == subs[k].userId && subs[i].typeId == subs[k].typeId);
      } else {
        assert !(subs[k].userId == subs[i].userId && subs[k].typeId == subs[i].typeId);
      }
    }
  }

  /** Rows changed only outside their user and type keep the table well formed. */
  lemma SameKeysKeepWellFormed(ts: seq<SubscriptionType>, subs: seq<UserSubscription>, r: seq<UserSubscription>)
    requires WellFormed(ts, subs) && |r| == |subs|
    requires forall i :: 0 <= i < |subs| ==> r[i].userId == subs[i].userId && r[i].typeId == subs[i].typeId
    ensures WellFormed(ts, r)
  {
    forall x | x in r ensures exists u :: u in ts && u.id == x.typeId {
      var i :| 0 <= i < |r| && r[i] == x;
      assert subs[i] in subs;
    }
  }

  /** A row appended after rows that all miss `p` is the first match. */
  lemma FirstAfterMisses<T(!new)>(xs: seq<T>, x: T, p: T -> bool)
    requires forall y :: y in xs ==> !p(y)
    requires p(x)
    ensures First(xs + [x], p) == Some(x)
  {
    if xs != [] {
      assert (xs + [x])[1..] == xs[1..] + [x];
      FirstAfterMisses(xs[1..], x, p);
    }
  }

  /** When row `k` is the only row matching `p`, it is the first match. */
  lemma FirstUnique<T(!new)>(xs: seq<T>, k: nat, p: T -> bool)
    requires k < |xs| && p(xs[k])
    requires forall i :: 0 <= i < |xs| && i != k ==> !p(xs[i])
    ensures First(xs, p) == Some(xs[k])
  {
    if k > 0 {
      FirstUnique(xs[1..], k - 1, p);
    }
  }

  /** `user_settings_service.update_subscription`: NotFound for an unknown type, else upsert. */
  function UpdateSubscription(ts: seq<SubscriptionType>, subs: seq<UserSubscription>, userId: nat, typeId: nat,
    isEnabled: bool, customSettings: Option<Object>)
    : (r: Result<(seq<UserSubscription>, UserSubscription)>)
    ensures r.Err? <==> FindType(ts, typeId).None?
    ensures r.Err? ==> r.error == Custom(NotFoundError, "订阅类型不存在")
    ensures r.Ok? ==> r.value.1.userId == userId && r.value.1.typeId == typeId && r.value.1.settings.isEnabled == isEnabled
    ensures r.Ok? && customSettings.Some? && customSettings.value != map[] ==> r.value.1.settings.customSettings == customSettings.value
    ensures r.Ok? && (customSettings.None? || customSettings.value == map[]) ==>
      (match FindSubscription(subs, userId, typeId)
       case Some(prior) => r.value.1.settings.customSettings == prior.settings.customSettings
       case None => r.value.1.settings.customSettings == map[])
    ensures r.Ok? && FindSubscription(subs, userId, typeId).None? ==>
      r.value.1.settings.timeStart == DefaultStart && r.value.1.settings.timeEnd == DefaultEnd
      && r.value.1.settings.timezone == DefaultTimezone
    ensures r.Ok? && FindSubscription(subs, userId, typeId).None? ==>
      r.value.0 == subs + [r.value.1] && forall s :: s in subs ==> s.id != r.value.1.id
    ensures r.Ok? && FindSubscription(subs, userId, typeId).Some? ==>
      var prior := FindSubscription(subs, userId, typeId).value;
      r.value.1.id == prior.id && r.value.1.settings.timeStart == prior.settings.timeStart
      && r.value.1.settings.timeEnd == prior.settings.timeEnd && r.value.1.settings.timezone == prior.settings.timezone
      && |r.value.0| == |subs|
      && forall i :: 0 <= i < |subs| ==> r.value.0[i] == if subs[i] == prior then r.value.1 else subs[i]
  {
    match FindType(ts, typeId)
    case None => Err(Custom(NotFoundError, "订阅类型不存在"))
    case Some(t) =>
      // A fresh row takes the column defaults (custom_settings = {}), so only a truthy dict is written.
      var given := if customSettings.Some? && customSettings.value != map[] then customSettings else None;
      Ok(Upsert(subs, userId, t.(defaultSettings := map[]), SettingsRequest(isEnabled, given, None, None, None)))
  }

  /** The number of records of the type, `filter(type_id == id).count()`. */
  function SubscriberCount(subs: seq<UserSubscription>, typeId: nat): (n: nat)
    ensures n <= |subs|
    ensures n == |Filter(subs, (s: UserSubscription) => s.typeId == typeId)|
    ensures n == 0 <==> forall s :: s in subs ==> s.typeId != typeId
  {
    var f := Filter(subs, (s: UserSubscription) => s.typeId == typeId);
    if f != [] then assert f[0] in f; |f| else |f|
  }

  /** The number of the type's records whose settings are enabled. */
  function EnabledSubscriberCount(subs: seq<UserSubscription>, typeId: nat): (n: nat)
    ensures n <= SubscriberCount(subs, typeId)
    ensures n == |Filter(subs, (s: UserSubscription) => s.typeId == typeId && s.settings.isEnabled)|
    ensures n == 0 <==> forall s :: s in subs ==> !(s.typeId == typeId && s.settings.isEnabled)
  {
    FilterStronger(subs, (s: UserSubscription) => s.typeId == typeId && s.settings.isEnabled,
      (s: UserSubscription) => s.typeId == typeId);
    var f := Filter(subs, (s: UserSubscription) => s.typeId == typeId && s.settings.isEnabled);
    if f != [] then assert f[0] in f; |f| else |f|
  }

  function DisabledSubscriberCount(subs: seq<UserSubscription>, typeId: nat): (n: nat)
    ensures n == SubscriberCount(subs, typeId) - EnabledSubscriberCount(subs, typeId)
  {
    FilterPartition(subs, (s: UserSubscription) => s.typeId == typeId,
      (s: UserSubscription) => s.typeId == typeId && s.settings.isEnabled,
      (s: UserSubscription) => s.typeId == typeId && !s.settings.isEnabled,
      (s: UserSubscription) => s.settings.isEnabled);
    |Filter(subs, (s: UserSubscription) => s.typeId == typeId && !s.settings.isEnabled)|
  }

  /** A type no subscription references can be removed without leaving a dangling reference. */
  lemma RemoveUnreferencedType(ts: seq<SubscriptionType>, subs: seq<UserSubscription>, id: nat)
    requires WellFormed(ts, subs)
    requires SubscriberCount(subs, id) == 0
    ensures WellFormed(Filter(ts, (t: SubscriptionType) => t.id != id), subs)
  {
    var rest := Filter(ts, (t: SubscriptionType) => t.id != id);
    forall s | s in subs ensures exists t :: t in rest && t.id == s.typeId {
      var t :| t in ts && t.id == s.typeId;
      assert t in rest;
    }
  }
}
